/** Every step of a submit call keeps the invariant. */
module SubmitSteps {
  import opened Counting
  import opened Shards
  import opened Scaling
  import opened TaskBufferSpec
  import opened Protocol
  import opened Invariant

  function Bit(b: bool): int { if b then 1 else 0 }

  lemma JobUpdateOk(c: Config, jobs: seq<Job>, id: Id, j: Job)
    requires JobsOk(c, jobs) && id < |jobs| && JobOk(c, j)
    ensures JobsOk(c, jobs[id := j])
  {
  }

  /** A job changes while its task stays in place, or stays outside the queues and workers. */
  lemma LocalPlaces(c: Config, s: State, id: Id, j: Job)
    requires Places(c, s) && id < |s.jobs| && JobOk(c, j)
    requires j.stage == s.jobs[id].stage || (!InSystem(j.stage) && !InSystem(s.jobs[id].stage))
    requires !IsForwarding(j.pc) && !IsForwarding(s.jobs[id].pc)
    ensures Places(c, s.(jobs := s.jobs[id := j]))
  {
    var jobs' := s.jobs[id := j];
    JobUpdateOk(c, s.jobs, id, j);
    ShardsFrame(c, s.jobs, jobs', s.shards);
    BufferFrame(s.jobs, jobs', s.buffer, s.bufOwner);
    GorsFrame(c, s.jobs, jobs', s.gors);
    FinishedFrame(s.jobs, jobs', s.finished);
  }

  /** One job changes and the counters move with it; no worker object changes hands. */
  lemma JobBooks(c: Config, s: State, id: Id, j: Job, p: int, w: int, r: int)
    requires c.Valid() && Books(c, s) && id < |s.jobs|
    requires !j.pc.ColdStart?
    requires p == s.pending - Bit(InPending(s.jobs[id])) + Bit(InPending(j))
    requires w == s.wg - Bit(InWg(s.jobs[id])) + Bit(InWg(j))
    requires r == s.running - Bit(Reserving(s.jobs[id])) + Bit(Reserving(j)) && r <= Max(s.running, 1)
    requires s.scaler.Stopped? && InPending(j) ==> TurnedAway(j)
    ensures Books(c, s.(jobs := s.jobs[id := j], pending := p, wg := w, running := r))
  {
    JobCounts(s.jobs, id, j);
  }

  /** One submit call moves on by itself, with its counters; its task stays in place or outside the queues. */
  lemma Local(c: Config, s: State, id: Id, j: Job, p: int, w: int, r: int)
    requires c.Valid() && Inv(c, s) && id < |s.jobs| && JobOk(c, j)
    requires j.stage == s.jobs[id].stage || (!InSystem(j.stage) && !InSystem(s.jobs[id].stage))
    requires !IsForwarding(j.pc) && !IsForwarding(s.jobs[id].pc) && !j.pc.ColdStart?
    requires p == s.pending - Bit(InPending(s.jobs[id])) + Bit(InPending(j))
    requires w == s.wg - Bit(InWg(s.jobs[id])) + Bit(InWg(j))
    requires r == s.running - Bit(Reserving(s.jobs[id])) + Bit(Reserving(j)) && r <= Max(s.running, 1)
    requires s.scaler.Stopped? && InPending(j) ==> TurnedAway(j)
    ensures Inv(c, s.(jobs := s.jobs[id := j], pending := p, wg := w, running := r))
  {
    LocalPlaces(c, s, id, j);
    JobBooks(c, s, id, j, p, w, r);
  }

  /** The Enqueued event. */
  lemma AnnounceStep(c: Config, s: State, id: Id)
    requires c.Valid() && Inv(c, s) && SubEnabled(c, s, id) && s.jobs[id].pc.Announce?
    ensures Inv(c, SubStep(c, s, id))
  {
    var j := s.jobs[id];
    assert JobOk(c, j);
    Local(c, s, id, j.(pc := Returned(true), enqueued := j.enqueued + 1), s.pending, s.wg, s.running);
  }

  // The counter updates on entry and on the rejecting paths.

  lemma EnterStep(c: Config, s: State, id: Id)
    requires c.Valid() && Inv(c, s) && SubEnabled(c, s, id) && s.jobs[id].pc.Enter?
    ensures Inv(c, SubStep(c, s, id))
  {
    var j := s.jobs[id];
    assert JobOk(c, j);
    var j' := j.(pc := AddWg, stage := CountedOnce);
    assert SubStep(c, s, id) == s.(jobs := s.jobs[id := j'], pending := s.pending + 1);
    Local(c, s, id, j', s.pending + 1, s.wg, s.running);
  }

  lemma AddWgStep(c: Config, s: State, id: Id)
    requires c.Valid() && Inv(c, s) && SubEnabled(c, s, id) && s.jobs[id].pc.AddWg?
    ensures Inv(c, SubStep(c, s, id))
  {
    var j := s.jobs[id];
    assert JobOk(c, j);
    var j' := j.(pc := CheckClosed, stage := WithSubmitter);
    assert SubStep(c, s, id) == s.(jobs := s.jobs[id := j'], wg := s.wg + 1);
    Local(c, s, id, j', s.pending, s.wg + 1, s.running);
  }

  lemma DropPendingStep(c: Config, s: State, id: Id)
    requires c.Valid() && Inv(c, s) && SubEnabled(c, s, id) && s.jobs[id].pc.DropPending?
    ensures Inv(c, SubStep(c, s, id))
  {
    var j := s.jobs[id];
    assert JobOk(c, j);
    var j' := j.(pc := DropWg, stage := Dropping);
    assert SubStep(c, s, id) == s.(jobs := s.jobs[id := j'], pending := s.pending - 1);
    Local(c, s, id, j', s.pending - 1, s.wg, s.running);
  }

  lemma DropWgStep(c: Config, s: State, id: Id)
    requires c.Valid() && Inv(c, s) && SubEnabled(c, s, id) && s.jobs[id].pc.DropWg?
    ensures Inv(c, SubStep(c, s, id))
  {
    var j := s.jobs[id];
    assert JobOk(c, j);
    var j' := j.(pc := Returned(false), stage := Rejected);
    assert SubStep(c, s, id) == s.(jobs := s.jobs[id := j'], wg := s.wg - 1);
    Local(c, s, id, j', s.pending, s.wg - 1, s.running);
  }

  /** The closed flag, the cold-start load and a lost CAS move only the program point. */
  lemma FlagStep(c: Config, s: State, id: Id, pc: SubPc)
    requires c.Valid() && Inv(c, s) && SubEnabled(c, s, id) && SubStep(c, s, id) == WithPc(s, id, pc)
    requires var from := s.jobs[id].pc; from.CheckClosed? || from.ColdLoad? || from.ColdCas?
    requires pc.DropPending? || (pc.ColdLoad? && !s.Closed()) || (s.jobs[id].pc != CheckClosed && (pc.ColdCas? || pc.Pick?))
    ensures Inv(c, SubStep(c, s, id))
  {
    assert JobOk(c, s.jobs[id]);
    Local(c, s, id, s.jobs[id].(pc := pc), s.pending, s.wg, s.running);
  }

  /** A won CAS reserves the first worker. */
  lemma CasStep(c: Config, s: State, id: Id)
    requires c.Valid() && Inv(c, s) && SubEnabled(c, s, id) && s.jobs[id].pc.ColdCas? && s.running == 0
    ensures Inv(c, SubStep(c, s, id))
  {
    assert JobOk(c, s.jobs[id]);
    assert SubStep(c, s, id) == WithPc(s, id, ColdGet).(running := 1);
    Local(c, s, id, s.jobs[id].(pc := ColdGet), s.pending, s.wg, 1);
  }

  /** A shard is chosen or found full, the buffer is found closed or full, or the blocking select is given up. */
  lemma MissStep(c: Config, s: State, id: Id, pc: SubPc, q: nat)
    requires c.Valid() && Inv(c, s) && id < |s.jobs| && s.jobs[id].stage.WithSubmitter?
    requires var from := s.jobs[id].pc; from.Pick? || from.Offer? || from.Push? || from.FullPick? || from.FullWait?
    requires pc.DropPending? || pc.Push? || pc.FullPick? || ((pc.Offer? || pc.FullWait?) && pc.k < c.shards)
    ensures Inv(c, WithPc(s, id, pc).(sendSeq := q))
  {
    assert JobOk(c, s.jobs[id]);
    Local(c, s, id, s.jobs[id].(pc := pc), s.pending, s.wg, s.running);
  }

  // ---- the cold start ----

  lemma ColdGetBooks(c: Config, s: State, id: Id)
    requires c.Valid() && Books(c, s) && SubEnabled(c, s, id) && s.jobs[id].pc.ColdGet?
    ensures Books(c, SubStep(c, s, id))
  {
    JobCounts(s.jobs, id, SubStep(c, s, id).jobs[id]);
  }

  /** A goroutine that starts at Begin holds nothing. */
  lemma LaunchGors(c: Config, s: State, obj: Obj)
    requires c.Valid() && GorsOk(c, s.jobs, s.gors) && obj < |s.owner|
    ensures GorsOk(c, s.jobs, Launch(c, s, obj).gors)
  {
    var w := Launch(c, s, obj).gors[|s.gors|];
    ShardInRange(NextCursor(s.workerSeq), c.shards);
    var gors' := s.gors + [w];
    forall g | 0 <= g < |gors'|
      ensures GorOk(c, s.jobs, gors'[g], g)
    {
      assert g < |s.gors| ==> GorOk(c, s.jobs, s.gors[g], g);
    }
  }

  lemma LaunchAlive(c: Config, s: State, obj: Obj)
    requires c.shards >= 1 && obj < |s.owner|
    ensures Count(Launch(c, s, obj).gors, Alive) == Count(s.gors, Alive) + 1
  {
    CountAppend(s.gors, Launch(c, s, obj).gors[|s.gors|], Alive);
  }

  /** The object passes from its spawner to the new goroutine. */
  lemma LaunchOwners(c: Config, s: State, obj: Obj)
    requires c.shards >= 1 && OwnersOk(s.jobs, s.gors, s.idle, s.owner, s.scaler) && obj < |s.owner|
    requires !s.owner[obj].Worker? && !s.owner[obj].Parked?
    requires forall id :: 0 <= id < |s.jobs| && s.jobs[id].pc.ColdStart? ==> s.jobs[id].pc.obj != obj
    requires s.scaler.Start? ==> s.scaler.obj != obj
    ensures var t := Launch(c, s, obj); OwnersOk(t.jobs, t.gors, t.idle, t.owner, t.scaler)
  {
  }

  lemma ColdStartOwners(c: Config, s: State, id: Id)
    requires Books(c, s) && SubEnabled(c, s, id) && s.jobs[id].pc.ColdStart?
    ensures var t := SubStep(c, s, id); OwnersOk(t.jobs, t.gors, t.idle, t.owner, t.scaler)
  {
    LaunchOwners(c, WithPc(s, id, Pick), s.jobs[id].pc.obj);
  }

  lemma ColdStartBooks(c: Config, s: State, id: Id)
    requires c.Valid() && Books(c, s) && SubEnabled(c, s, id) && s.jobs[id].pc.ColdStart?
    ensures Books(c, SubStep(c, s, id))
  {
    var t := WithPc(s, id, Pick);
    var obj := s.jobs[id].pc.obj;
    assert SubStep(c, s, id) == Launch(c, t, obj);
    ColdStartOwners(c, s, id);
    JobCounts(s.jobs, id, t.jobs[id]);
    LaunchAlive(c, t, obj);
  }

  lemma ColdStep(c: Config, s: State, id: Id)
    requires c.Valid() && Inv(c, s) && SubEnabled(c, s, id) && Reserving(s.jobs[id])
    ensures Inv(c, SubStep(c, s, id))
  {
    var j := SubStep(c, s, id).jobs[id];
    assert JobOk(c, s.jobs[id]);
    LocalPlaces(c, s, id, j);
    if s.jobs[id].pc.ColdGet? {
      ColdGetBooks(c, s, id);
    } else {
      ColdStartBooks(c, s, id);
      LaunchGors(c, WithPc(s, id, Pick), s.jobs[id].pc.obj);
    }
  }

  // ---- sends ----

  lemma SendPlaces(c: Config, s: State, id: Id, k: nat)
    requires Places(c, s) && id < |s.jobs| && HasRoom(c, s, k)
    requires s.jobs[id].stage.WithSubmitter? && !IsForwarding(s.jobs[id].pc)
    ensures Places(c, Send(WithJob(s, id, Announce, InShard(k)), k, id))
  {
    var j := s.jobs[id].(pc := Announce, stage := InShard(k));
    var jobs' := s.jobs[id := j];
    assert JobOk(c, s.jobs[id]);
    JobUpdateOk(c, s.jobs, id, j);
    ShardsSend(c, s.jobs, s.shards, id, k, j);
    SendFrames(c, s, id, j);
  }

  /** A submitter's own task that leaves it for a shard touches neither buffer nor workers nor the finished log. */
  lemma SendFrames(c: Config, s: State, id: Id, j: Job)
    requires Places(c, s) && id < |s.jobs| && s.jobs[id].stage.WithSubmitter? && j.stage.InShard?
    requires !IsForwarding(s.jobs[id].pc) && !IsForwarding(j.pc)
    ensures BufferOk(s.jobs[id := j], s.buffer, s.bufOwner)
    ensures GorsOk(c, s.jobs[id := j], s.gors) && FinishedOk(s.jobs[id := j], s.finished)
  {
    var jobs' := s.jobs[id := j];
    BufferFrame(s.jobs, jobs', s.buffer, s.bufOwner);
    GorsFrame(c, s.jobs, jobs', s.gors);
    FinishedFrame(s.jobs, jobs', s.finished);
  }

  /** A successful send of the submitter's own task. */
  lemma SendStep(c: Config, s: State, id: Id)
    requires c.Valid() && Inv(c, s) && SubEnabled(c, s, id)
    requires var pc := s.jobs[id].pc; (pc.Offer? || pc.FullWait?) && HasRoom(c, s, pc.k)
    ensures Inv(c, SubStep(c, s, id))
  {
    var k := s.jobs[id].pc.k;
    assert SubStep(c, s, id) == Send(WithJob(s, id, Announce, InShard(k)), k, id);
    assert JobOk(c, s.jobs[id]);
    SendPlaces(c, s, id, k);
    JobBooks(c, s, id, s.jobs[id].(pc := Announce, stage := InShard(k)), s.pending, s.wg, s.running);
  }

  // ---- PushAndForward ----

  lemma PushBuffer(jobs: seq<Job>, buffer: seq<Id>, id: Id, j: Job)
    requires BufferOk(jobs, buffer, None) && |buffer| < MAX_CHUNK_LEN && id < |jobs|
    requires !jobs[id].stage.InBuffer? && j.stage.InBuffer? && j.pc.FwdPick?
    ensures BufferOk(jobs[id := j], buffer + [id], Some(id))
  {
    var q := buffer + [id];
    var jobs' := jobs[id := j];
    assert Unsent(jobs', q, Some(id)) == q;
    assert id !in buffer;
    forall x | 0 <= x < |jobs'| && jobs'[x].stage.InBuffer?
      ensures x in q
    {
      assert x != id ==> x in buffer;
    }
  }

  lemma PushPlaces(c: Config, s: State, id: Id)
    requires Places(c, s) && SubEnabled(c, s, id) && s.jobs[id].pc.Push?
    requires PushOutcome(|s.buffer|, s.OverflowClosed()).BufferAccepted?
    ensures Places(c, SubStep(c, s, id))
  {
    var j := s.jobs[id].(pc := FwdPick, stage := InBuffer);
    var jobs' := s.jobs[id := j];
    assert JobOk(c, s.jobs[id]);
    JobUpdateOk(c, s.jobs, id, j);
    ShardsFrame(c, s.jobs, jobs', s.shards);
    PushBuffer(s.jobs, s.buffer, id, j);
    GorsFrame(c, s.jobs, jobs', s.gors);
    FinishedFrame(s.jobs, jobs', s.finished);
  }

  lemma PushStep(c: Config, s: State, id: Id)
    requires c.Valid() && Inv(c, s) && SubEnabled(c, s, id) && s.jobs[id].pc.Push?
    requires PushOutcome(|s.buffer|, s.OverflowClosed()).BufferAccepted?
    ensures Inv(c, SubStep(c, s, id))
  {
    assert JobOk(c, s.jobs[id]);
    PushPlaces(c, s, id);
    JobBooks(c, s, id, SubStep(c, s, id).jobs[id], s.pending, s.wg, s.running);
  }

  /** The lock holder moves on while its task, wherever it now is, stays in place. */
  lemma HolderPlaces(c: Config, s: State, id: Id, pc: SubPc)
    requires Places(c, s) && id < |s.jobs| && IsForwarding(s.jobs[id].pc)
    requires pc.Announce? || (pc.FwdSend? && pc.k < c.shards) || pc.FwdPop?
    ensures JobsOk(c, WithPc(s, id, pc).jobs) && ShardsOk(c, WithPc(s, id, pc).jobs, s.shards)
    ensures GorsOk(c, WithPc(s, id, pc).jobs, s.gors) && FinishedOk(WithPc(s, id, pc).jobs, s.finished)
  {
    assert JobOk(c, s.jobs[id]);
    var j := s.jobs[id].(pc := pc);
    var jobs' := s.jobs[id := j];
    JobUpdateOk(c, s.jobs, id, j);
    ShardsFrame(c, s.jobs, jobs', s.shards);
    GorsFrame(c, s.jobs, jobs', s.gors);
    FinishedFrame(s.jobs, jobs', s.finished);
  }

  /** For the buffer: picking the forward shard, and unlocking with or without the popped head. */
  lemma HolderBuffer(jobs: seq<Job>, buffer: seq<Id>, id: Id, j: Job)
    requires BufferOk(jobs, buffer, Some(id)) && id < |jobs|
    requires j.stage == jobs[id].stage
    ensures jobs[id].pc.FwdPick? && j.pc.FwdSend? ==> BufferOk(jobs[id := j], buffer, Some(id))
    ensures j.pc.Announce? ==> BufferOk(jobs[id := j], Unsent(jobs, buffer, Some(id)), None)
  {
    if jobs[id].pc.FwdPick? && j.pc.FwdSend? {
      assert Unsent(jobs[id := j], buffer, Some(id)) == Unsent(jobs, buffer, Some(id));
    }
    if j.pc.Announce? {
      var q := Unsent(jobs, buffer, Some(id));
      assert Unsent(jobs[id := j], q, None) == q;
    }
  }

  /** Choosing the forward shard, a forward that finds no room, and the pop after a successful send. */
  lemma ForwardStep(c: Config, s: State, id: Id)
    requires c.Valid() && Inv(c, s) && SubEnabled(c, s, id)
    requires var pc := s.jobs[id].pc; pc.FwdPick? || (pc.FwdSend? && !HasRoom(c, s, pc.k)) || pc.FwdPop?
    ensures Inv(c, SubStep(c, s, id))
  {
    assert JobOk(c, s.jobs[id]);
    var q := NextCursor(s.sendSeq);
    ShardInRange(q, c.shards);
    if s.jobs[id].pc.FwdPick? {
      ForwardPickStep(c, s, id, FwdSend(ShardOf(q, c.shards)), q);
    } else {
      ForwardEnds(c, s, id);
      ForwardEndStep(c, s, id, Unsent(s.jobs, s.buffer, Some(id)));
    }
  }

  lemma ForwardEnds(c: Config, s: State, id: Id)
    requires SubEnabled(c, s, id)
    requires var pc := s.jobs[id].pc; (pc.FwdSend? && !HasRoom(c, s, pc.k)) || pc.FwdPop?
    ensures SubStep(c, s, id) == WithPc(s, id, Announce).(buffer := Unsent(s.jobs, s.buffer, Some(id)), bufOwner := None)
  {
  }

  /** The forward has a shard; taskMu stays held. */
  lemma ForwardPickStep(c: Config, s: State, id: Id, pc: SubPc, q: nat)
    requires c.Valid() && Inv(c, s) && id < |s.jobs| && s.jobs[id].pc.FwdPick? && pc.FwdSend? && pc.k < c.shards
    ensures Inv(c, WithPc(s, id, pc).(sendSeq := q))
  {
    var j := s.jobs[id].(pc := pc);
    assert JobOk(c, s.jobs[id]);
    HolderPlaces(c, s, id, pc);
    HolderBuffer(s.jobs, s.buffer, id, j);
    JobBooks(c, s, id, j, s.pending, s.wg, s.running);
  }

  /** The forward ends, with the head popped if it was sent, and taskMu is released. */
  lemma ForwardEndStep(c: Config, s: State, id: Id, buffer: seq<Id>)
    requires c.Valid() && Inv(c, s) && id < |s.jobs| && (s.jobs[id].pc.FwdSend? || s.jobs[id].pc.FwdPop?)
    requires buffer == Unsent(s.jobs, s.buffer, Some(id))
    ensures Inv(c, WithPc(s, id, Announce).(buffer := buffer, bufOwner := None))
  {
    var j := s.jobs[id].(pc := Announce);
    assert JobOk(c, s.jobs[id]);
    HolderPlaces(c, s, id, Announce);
    HolderBuffer(s.jobs, s.buffer, id, j);
    JobBooks(c, s, id, j, s.pending, s.wg, s.running);
  }

  /** The send half of a forward: the head stops counting as buffered while it still sits there. */
  lemma ForwardBuffer(jobs: seq<Job>, buffer: seq<Id>, id: Id, k: nat, jobs': seq<Job>)
    requires BufferOk(jobs, buffer, Some(id)) && id < |jobs| && jobs[id].pc.FwdSend?
    requires buffer != [] && buffer[0] < |jobs|
    requires |jobs'| == |jobs| && jobs'[buffer[0]].stage == InShard(k) && jobs'[id].pc.FwdPop?
    requires forall x :: 0 <= x < |jobs| ==>
      (x != buffer[0] ==> jobs'[x].stage == jobs[x].stage) && (x != id ==> jobs'[x].pc == jobs[x].pc)
    ensures BufferOk(jobs', buffer, Some(id))
  {
    assert Unsent(jobs, buffer, Some(id)) == buffer && Unsent(jobs', buffer, Some(id)) == buffer[1..];
    QueueTail(jobs, buffer, jobs');
  }

  lemma QueueTail(jobs: seq<Job>, q: seq<Id>, jobs': seq<Job>)
    requires QueueOk(jobs, q) && q != [] && |jobs'| == |jobs| && q[0] < |jobs| && jobs'[q[0]].stage.InShard?
    requires forall x :: 0 <= x < |jobs| && x != q[0] ==> jobs'[x].stage == jobs[x].stage
    ensures QueueOk(jobs', q[1..])
  {
    var rest := q[1..];
    forall i | 0 <= i < |rest|
      ensures rest[i] < |jobs'| && jobs'[rest[i]].stage.InBuffer?
    {
      assert rest[i] == q[i + 1] && q[0] != q[i + 1];
    }
    forall x | 0 <= x < |jobs'| && jobs'[x].stage.InBuffer?
      ensures x in rest
    {
      assert x in q && x != q[0];
      assert q == [q[0]] + rest;
    }
  }

  /** A buffered task becomes a task of shard k. */
  lemma HeadToShard(c: Config, jobs: seq<Job>, s: State, head: Id, k: nat)
    requires JobsOk(c, jobs) && ShardsOk(c, jobs, s.shards) && GorsOk(c, jobs, s.gors) && FinishedOk(jobs, s.finished)
    requires head < |jobs| && jobs[head].stage.InBuffer? && HasRoom(c, s, k)
    ensures var jobs' := jobs[head := jobs[head].(stage := InShard(k))];
      JobsOk(c, jobs') && ShardsOk(c, jobs', s.shards[k := s.shards[k] + [head]])
      && GorsOk(c, jobs', s.gors) && FinishedOk(jobs', s.finished)
  {
    var j := jobs[head].(stage := InShard(k));
    assert JobOk(c, jobs[head]);
    JobUpdateOk(c, jobs, head, j);
    ShardsSend(c, jobs, s.shards, head, k, j);
    GorsFrame(c, jobs, jobs[head := j], s.gors);
    FinishedFrame(jobs, jobs[head := j], s.finished);
  }

  lemma ForwardSendPlaces(c: Config, s: State, id: Id)
    requires Places(c, s) && SubEnabled(c, s, id)
    requires s.jobs[id].pc.FwdSend? && HasRoom(c, s, s.jobs[id].pc.k)
    ensures Places(c, SubStep(c, s, id))
    ensures s.jobs[s.buffer[0]].stage.InBuffer?
  {
    var k, head := s.jobs[id].pc.k, s.buffer[0];
    assert s.bufOwner == Some(id) && Unsent(s.jobs, s.buffer, s.bufOwner) == s.buffer;
    HolderPlaces(c, s, id, FwdPop);
    var jobs1 := WithPc(s, id, FwdPop).jobs;
    HeadToShard(c, jobs1, s, head, k);
    ForwardBuffer(s.jobs, s.buffer, id, k, jobs1[head := jobs1[head].(stage := InShard(k))]);
  }

  lemma ForwardSendBooks(c: Config, s: State, id: Id)
    requires c.Valid() && Books(c, s) && SubEnabled(c, s, id)
    requires s.jobs[id].pc.FwdSend? && HasRoom(c, s, s.jobs[id].pc.k)
    requires s.jobs[s.buffer[0]].stage.InBuffer? && !TurnedAway(s.jobs[s.buffer[0]]) && JobOk(c, s.jobs[id])
    requires IsForwarding(s.jobs[s.buffer[0]].pc) || s.jobs[s.buffer[0]].pc.Announce? || s.jobs[s.buffer[0]].pc.Returned?
    ensures Books(c, SubStep(c, s, id))
  {
    var k, head := s.jobs[id].pc.k, s.buffer[0];
    var t := WithPc(s, id, FwdPop);
    JobBooks(c, s, id, t.jobs[id], s.pending, s.wg, s.running);
    JobBooks(c, t, head, t.jobs[head].(stage := InShard(k)), s.pending, s.wg, s.running);
  }

  lemma ForwardSendStep(c: Config, s: State, id: Id)
    requires c.Valid() && Inv(c, s) && SubEnabled(c, s, id)
    requires s.jobs[id].pc.FwdSend? && HasRoom(c, s, s.jobs[id].pc.k)
    ensures Inv(c, SubStep(c, s, id))
  {
    ForwardSendPlaces(c, s, id);
    assert JobOk(c, s.jobs[id]) && JobOk(c, s.jobs[s.buffer[0]]);
    ForwardSendBooks(c, s, id);
  }

  predicate Early(pc: SubPc) {
    pc.Enter? || pc.AddWg? || pc.CheckClosed? || pc.ColdLoad? || pc.ColdCas? || pc.ColdGet? || pc.ColdStart?
  }

  lemma EarlyKeepsInv(c: Config, s: State, id: Id)
    requires c.Valid() && Inv(c, s) && SubEnabled(c, s, id) && Early(s.jobs[id].pc)
    ensures Inv(c, SubStep(c, s, id))
  {
    match s.jobs[id].pc
    case Enter => EnterStep(c, s, id);
    case AddWg => AddWgStep(c, s, id);
    case CheckClosed => FlagStep(c, s, id, if s.Closed() then DropPending else ColdLoad);
    case ColdLoad => FlagStep(c, s, id, if s.running == 0 then ColdCas else Pick);
    case ColdCas => if s.running == 0 { CasStep(c, s, id); } else { FlagStep(c, s, id, Pick); }
    case ColdGet | ColdStart(_) => ColdStep(c, s, id);
  }

  predicate Sending(pc: SubPc) {
    pc.Pick? || pc.Offer? || pc.FullPick? || pc.FullWait?
  }

  lemma SendingKeepsInv(c: Config, s: State, id: Id)
    requires c.Valid() && Inv(c, s) && SubEnabled(c, s, id) && Sending(s.jobs[id].pc)
    ensures Inv(c, SubStep(c, s, id))
  {
    assert JobOk(c, s.jobs[id]);
    var q := NextCursor(s.sendSeq);
    ShardInRange(q, c.shards);
    match s.jobs[id].pc
    case Pick => MissStep(c, s, id, Offer(ShardOf(q, c.shards)), q);
    case FullPick => MissStep(c, s, id, FullWait(ShardOf(q, c.shards)), q);
    case Offer(k) =>
      if HasRoom(c, s, k) { SendStep(c, s, id); } else { MissStep(c, s, id, if c.nonblock then DropPending else Push, s.sendSeq); }
    case FullWait(_) => SendStep(c, s, id);
  }

  lemma PushKeepsInv(c: Config, s: State, id: Id)
    requires c.Valid() && Inv(c, s) && SubEnabled(c, s, id) && s.jobs[id].pc.Push?
    ensures Inv(c, SubStep(c, s, id))
  {
    var r := PushOutcome(|s.buffer|, s.OverflowClosed());
    if r.BufferAccepted? {
      PushStep(c, s, id);
    } else {
      PushRefusedStep(c, s, id, if r.BufferFull? then FullPick else DropPending);
    }
  }

  lemma PushRefusedStep(c: Config, s: State, id: Id, pc: SubPc)
    requires c.Valid() && Inv(c, s) && SubEnabled(c, s, id) && s.jobs[id].pc.Push?
    requires (pc.FullPick? || pc.DropPending?) && SubStep(c, s, id) == WithPc(s, id, pc)
    ensures Inv(c, SubStep(c, s, id))
  {
    assert JobOk(c, s.jobs[id]);
    MissStep(c, s, id, pc, s.sendSeq);
  }

  lemma ForwardKeepsInv(c: Config, s: State, id: Id)
    requires c.Valid() && Inv(c, s) && SubEnabled(c, s, id) && IsForwarding(s.jobs[id].pc)
    ensures Inv(c, SubStep(c, s, id))
  {
    if s.jobs[id].pc.FwdSend? && HasRoom(c, s, s.jobs[id].pc.k) {
      ForwardSendStep(c, s, id);
    } else {
      ForwardStep(c, s, id);
    }
  }

  lemma SubKeepsInv(c: Config, s: State, id: Id)
    requires c.Valid() && Inv(c, s) && SubEnabled(c, s, id)
    ensures Inv(c, SubStep(c, s, id))
  {
    var pc := s.jobs[id].pc;
    if Early(pc) {
      EarlyKeepsInv(c, s, id);
    } else if Sending(pc) {
      SendingKeepsInv(c, s, id);
    } else if pc.Announce? {
      AnnounceStep(c, s, id);
    } else if pc.DropPending? {
      DropPendingStep(c, s, id);
    } else if pc.DropWg? {
      DropWgStep(c, s, id);
    } else if pc.Push? {
      PushKeepsInv(c, s, id);
    } else {
      ForwardKeepsInv(c, s, id);
    }
  }
}
