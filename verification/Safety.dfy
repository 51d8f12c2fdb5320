/** What holds in every reachable state of the pool, and over every run. */
module Safety {
  import opened Counting
  import opened Tasks
  import opened Protocol
  import opened Invariant
  import opened Steps

  // ---- exactly once ----

  /** A slot in which a task can sit once it has left its submitter. */
  datatype Place = ShardSlot(k: nat, i: nat) | BufferSlot(i: nat) | BatchSlot(g: Gid, i: nat) | FinishedSlot(i: nat)

  /** The buffer head does not count between its send and its pop, both under taskMu. */
  predicate At(s: State, p: Place, id: Id) {
    match p
    case ShardSlot(k, i) => k < |s.shards| && i < |s.shards[k]| && s.shards[k][i] == id
    case BufferSlot(i) => i < |s.buffer| && s.buffer[i] == id && !(i == 0 && HeadSent(s.jobs, s.bufOwner))
    case BatchSlot(g, i) => g < |s.gors| && s.gors[g].pc.Run? && i < |s.gors[g].pc.batch| && s.gors[g].pc.batch[i] == id
    case FinishedSlot(i) => i < |s.finished| && s.finished[i] == id
  }

  /** The pool has taken the task. */
  predicate AcceptedPc(pc: SubPc) {
    IsForwarding(pc) || pc.Announce? || pc == Returned(true)
  }

  function PlaceStage(s: State, p: Place): Stage {
    match p
    case ShardSlot(k, _) => InShard(k)
    case BufferSlot(_) => InBuffer
    case BatchSlot(g, i) => if g < |s.gors| && s.gors[g].pc.Run? then ExpectedStage(g, s.gors[g].pc.phase, i) else Fresh
    case FinishedSlot(_) => Finished
  }

  lemma PlaceHasStage(c: Config, s: State, p: Place, id: Id)
    requires Places(c, s) && At(s, p, id)
    ensures id < |s.jobs| && s.jobs[id].stage == PlaceStage(s, p)
  {
    match p
    case ShardSlot(k, i) => assert ShardOk(c, s.jobs, s.shards[k], k);
    case BufferSlot(i) =>
      var q := Unsent(s.jobs, s.buffer, s.bufOwner);
      assert id == (if HeadSent(s.jobs, s.bufOwner) then q[i - 1] else q[i]);
    case BatchSlot(g, i) => assert GorOk(c, s.jobs, s.gors[g], g);
    case FinishedSlot(i) =>
  }

  lemma StageHasPlace(c: Config, s: State, id: Id) returns (p: Place)
    requires Places(c, s) && id < |s.jobs| && InSystem(s.jobs[id].stage)
    ensures At(s, p, id)
  {
    match s.jobs[id].stage
    case InShard(k) => var i :| 0 <= i < |s.shards[k]| && s.shards[k][i] == id; p := ShardSlot(k, i);
    case InBuffer =>
      var q := Unsent(s.jobs, s.buffer, s.bufOwner);
      var i :| 0 <= i < |q| && q[i] == id;
      p := BufferSlot(if HeadSent(s.jobs, s.bufOwner) then i + 1 else i);
    case Held(g) => var i :| 0 <= i < |s.gors[g].pc.batch| && s.gors[g].pc.batch[i] == id; p := BatchSlot(g, i);
    case Exec(g, _) => var i :| 0 <= i < |s.gors[g].pc.batch| && s.gors[g].pc.batch[i] == id; p := BatchSlot(g, i);
    case Settled(g) => var i :| 0 <= i < |s.gors[g].pc.batch| && s.gors[g].pc.batch[i] == id; p := BatchSlot(g, i);
    case Finished => var i :| 0 <= i < |s.finished| && s.finished[i] == id; p := FinishedSlot(i);
  }

  /** Two slots with the same stage belong to the same queue, batch or log. */
  lemma SameContainer(s: State, p: Place, q: Place, id: Id)
    requires At(s, p, id) && At(s, q, id) && PlaceStage(s, p) == PlaceStage(s, q)
    ensures p.ShardSlot? ==> q.ShardSlot? && p.k == q.k
    ensures p.BufferSlot? ==> q.BufferSlot?
    ensures p.BatchSlot? ==> q.BatchSlot? && p.g == q.g
    ensures p.FinishedSlot? ==> q.FinishedSlot?
  {
  }

  /** Two slots of the same task are the same slot. */
  lemma SamePlace(c: Config, s: State, p: Place, q: Place, id: Id)
    requires Places(c, s) && At(s, p, id) && At(s, q, id)
    ensures p == q
  {
    PlaceHasStage(c, s, p, id);
    PlaceHasStage(c, s, q, id);
    SameContainer(s, p, q, id);
    match p
    case ShardSlot(k, i) => assert ShardOk(c, s.jobs, s.shards[k], k);
    case BufferSlot(i) => SameBufferSlot(c, s, i, q.i, id);
    case BatchSlot(g, i) => assert GorOk(c, s.jobs, s.gors[g], g);
    case FinishedSlot(i) =>
  }

  lemma SameBufferSlot(c: Config, s: State, i: nat, j: nat, id: Id)
    requires Places(c, s) && At(s, BufferSlot(i), id) && At(s, BufferSlot(j), id)
    ensures i == j
  {
    var u := Unsent(s.jobs, s.buffer, s.bufOwner);
    var d := if HeadSent(s.jobs, s.bufOwner) then 1 else 0;
    assert u[i - d] == id == u[j - d];
  }

  /**
   Conservation: in every reachable interleaving an accepted task sits in exactly one slot of the
   shards, the buffer, the workers' batches or the finished log, and a task that was not accepted
   sits in none.
   */
  lemma ExactlyOnePlace(c: Config, s: State, id: Id)
    requires c.Valid() && Reachable(c, s) && id < |s.jobs|
    ensures AcceptedPc(s.jobs[id].pc) <==> exists p :: At(s, p, id)
    ensures forall p, q :: At(s, p, id) && At(s, q, id) ==> p == q
  {
    ReachableInv(c, s);
    assert JobOk(c, s.jobs[id]);
    if AcceptedPc(s.jobs[id].pc) {
      var p := StageHasPlace(c, s, id);
    } else {
      forall p | At(s, p, id)
        ensures false
      {
        PlaceHasStage(c, s, p, id);
      }
    }
    forall p, q | At(s, p, id) && At(s, q, id)
      ensures p == q
    {
      SamePlace(c, s, p, q, id);
    }
  }

  /** A task is physically in the buffer and elsewhere only as the head of a locked buffer, between send and pop. */
  lemma DoubledOnlyUnderLock(c: Config, s: State, i: nat, p: Place)
    requires c.Valid() && Reachable(c, s) && i < |s.buffer| && At(s, p, s.buffer[i]) && p != BufferSlot(i)
    ensures i == 0 && s.bufOwner.Some? && s.bufOwner.value < |s.jobs| && s.jobs[s.bufOwner.value].pc.FwdPop?
  {
    ReachableInv(c, s);
    if At(s, BufferSlot(i), s.buffer[i]) {
      SamePlace(c, s, p, BufferSlot(i), s.buffer[i]);
    }
  }

  /** runTask's trace for one task: Started, one execution of the body, Completed. */
  predicate RunPrefix(log: seq<Event>) {
    |log| <= 3 && (|log| > 0 ==> log[0] == Started) && (|log| > 1 ==> log[1].Ran?) && (|log| > 2 ==> log[2] == Completed)
  }

  /**
   Every task runs at most once, with its events in order, whether its body panics or not; it has
   run exactly when it is in the finished log or a worker is about to put it there; Enqueued fires
   exactly once per accepted task, by the time its submit returns; a task that is not accepted never
   starts.
   */
  lemma RunsOnce(c: Config, s: State, id: Id)
    requires c.Valid() && Reachable(c, s) && id < |s.jobs|
    ensures RunPrefix(s.jobs[id].log)
    ensures HasRun(s.jobs[id].log) <==> id in s.finished || exists g: Gid :: WindingUp(s, g, id)
    ensures !AcceptedPc(s.jobs[id].pc) ==> s.jobs[id].log == []
    ensures s.jobs[id].enqueued == if s.jobs[id].pc == Returned(true) then 1 else 0
    ensures !IsNilTask(s.jobs[id].body)
  {
    ReachableInv(c, s);
    assert JobOk(c, s.jobs[id]);
    WoundUp(c, s, id);
  }

  /** Worker g has completed the task and has its pending decrement or its Done still to do. */
  predicate WindingUp(s: State, g: Gid, id: Id) {
    g < |s.gors| && s.gors[g].pc.Run? && (s.gors[g].pc.phase == Settling || s.gors[g].pc.phase == Releasing)
    && s.gors[g].pc.batch != [] && s.gors[g].pc.batch[0] == id
  }

  lemma WoundUp(c: Config, s: State, id: Id)
    requires Places(c, s) && id < |s.jobs|
    ensures HasRun(s.jobs[id].log) <==> id in s.finished || exists g: Gid :: WindingUp(s, g, id)
  {
    var j := s.jobs[id];
    assert JobOk(c, j);
    if HasRun(j.log) && id !in s.finished {
      var p := StageHasPlace(c, s, id);
      PlaceHasStage(c, s, p, id);
      assert p.BatchSlot? && WindingUp(s, p.g, id);
    }
    if g: Gid :| WindingUp(s, g, id) {
      assert GorOk(c, s.jobs, s.gors[g], g);
      assert j.stage == ExpectedStage(g, s.gors[g].pc.phase, 0);
    }
  }

  // ---- the WaitGroup ----

  /** The counter is the number of submissions past wg.Add and not past Done; it is never negative. */
  lemma WaitGroupCounts(c: Config, s: State)
    requires c.Valid() && Reachable(c, s)
    ensures s.wg == Count(s.jobs, InWg) >= 0
    ensures s.pending == Count(s.jobs, InPending) >= 0
  {
    ReachableInv(c, s);
  }

  /** When Wait is released every accepted task has run to completion, panics included. */
  lemma WaitMeansFinished(c: Config, s: State, id: Id)
    requires c.Valid() && Reachable(c, s) && s.wg == 0 && id < |s.jobs|
    ensures AcceptedPc(s.jobs[id].pc) ==> id in s.finished && HasRun(s.jobs[id].log)
    ensures s.jobs[id].pc.Enter? || s.jobs[id].pc.AddWg? || s.jobs[id].pc == Returned(false) || AcceptedPc(s.jobs[id].pc)
  {
    ReachableInv(c, s);
    CountPositive(s.jobs, InWg);
    assert JobOk(c, s.jobs[id]) && !InWg(s.jobs[id]);
  }

  // ---- worker objects ----

  datatype Holder = ByGoroutine(g: Gid) | ByColdStart(id: Id) | ByScaler | ByIdle(i: nat)

  predicate Holds(s: State, h: Holder, o: Obj) {
    match h
    case ByGoroutine(g) => g < |s.gors| && !s.gors[g].pc.Exited? && s.gors[g].obj == o
    case ByColdStart(id) => id < |s.jobs| && s.jobs[id].pc == ColdStart(o)
    case ByScaler => s.scaler.Start? && s.scaler.obj == o
    case ByIdle(i) => i < |s.idle| && s.idle[i] == o
  }

  /** A worker object has at most one holder: a live goroutine, a spawner or one slot of the idle container. */
  lemma OneHolder(c: Config, s: State, o: Obj, h: Holder, h': Holder)
    requires c.Valid() && Reachable(c, s) && Holds(s, h, o) && Holds(s, h', o)
    ensures h == h'
  {
    ReachableInv(c, s);
  }

  lemma SubTimestamps(c: Config, s: State, id: Id)
    requires SubEnabled(c, s, id)
    ensures s.lastActive <= SubStep(c, s, id).lastActive
  {
  }

  /** Only a goroutine writes a timestamp, and only its own worker's. */
  lemma WorkTimestamps(c: Config, s: State, g: Gid, now: int, panics: bool)
    requires WorkEnabled(c, s, g)
    ensures |WorkStep(c, s, g, now, panics).lastActive| == |s.lastActive|
    ensures forall o :: 0 <= o < |s.lastActive| && o != s.gors[g].obj ==>
      WorkStep(c, s, g, now, panics).lastActive[o] == s.lastActive[o]
  {
  }

  /** No step changes the timestamp of a worker while the idle container holds it. */
  lemma IdleTimestampsFrozen(c: Config, s: State, a: Action, o: Obj)
    requires c.Valid() && Reachable(c, s) && Enabled(c, s, a) && o in s.idle
    ensures o < |s.lastActive| <= |Apply(c, s, a).lastActive|
    ensures Apply(c, s, a).lastActive[o] == s.lastActive[o]
  {
    ReachableInv(c, s);
    IdleIsNobodys(c, s, o);
    TimestampKept(c, s, a, o);
  }

  /** No live goroutine works on an idle object. */
  lemma IdleIsNobodys(c: Config, s: State, o: Obj)
    requires Books(c, s) && o in s.idle
    ensures o < |s.lastActive| && forall g :: 0 <= g < |s.gors| && !s.gors[g].pc.Exited? ==> s.gors[g].obj != o
  {
    var i :| 0 <= i < |s.idle| && s.idle[i] == o;
    assert s.owner[o] == Parked;
  }

  /** Only the worker that runs on an object writes its time. */
  lemma TimestampKept(c: Config, s: State, a: Action, o: Obj)
    requires Enabled(c, s, a) && o < |s.lastActive| && (a.Work? ==> s.gors[a.g].obj != o)
    ensures |s.lastActive| <= |Apply(c, s, a).lastActive| && Apply(c, s, a).lastActive[o] == s.lastActive[o]
  {
    if a.Work? {
      WorkTimestamps(c, s, a.g, a.now, a.panics);
    } else if a.Sub? {
      SubTimestamps(c, s, a.id);
    }
  }

  // ---- what a submit call can become ----

  lemma SubJobCount(c: Config, s: State, id: Id)
    requires SubEnabled(c, s, id)
    ensures |SubStep(c, s, id).jobs| == |s.jobs|
  {
  }

  lemma WorkJobCount(c: Config, s: State, g: Gid, now: int, panics: bool)
    requires WorkEnabled(c, s, g)
    ensures |WorkStep(c, s, g, now, panics).jobs| == |s.jobs|
  {
  }

  lemma SubOthers(c: Config, s: State, id: Id, x: Id)
    requires SubEnabled(c, s, id) && x < |s.jobs| && x != id
    ensures |SubStep(c, s, id).jobs| == |s.jobs| && SubStep(c, s, id).jobs[x].pc == s.jobs[x].pc
  {
  }

  lemma WorkOthers(c: Config, s: State, g: Gid, now: int, panics: bool, x: Id)
    requires WorkEnabled(c, s, g) && x < |s.jobs|
    ensures |WorkStep(c, s, g, now, panics).jobs| == |s.jobs| && WorkStep(c, s, g, now, panics).jobs[x].pc == s.jobs[x].pc
  {
  }

  predicate Concerns(a: Action, x: Id) {
    (a.Sub? || a.Cancel? || a.Shut?) && a.id == x
  }

  /** Only its own steps move a submit call. */
  lemma OwnStepsOnly(c: Config, s: State, a: Action, x: Id)
    requires Enabled(c, s, a) && x < |s.jobs| && !Concerns(a, x)
    ensures x < |Apply(c, s, a).jobs| && Apply(c, s, a).jobs[x].pc == s.jobs[x].pc
  {
    if a.Sub? {
      SubOthers(c, s, a.id, x);
    } else if a.Work? {
      WorkOthers(c, s, a.g, a.now, a.panics, x);
    }
  }

  /** A submit call that has returned keeps its answer; with RunsOnce, a rejected task never runs. */
  lemma {:induction false} ReturnedForGood(c: Config, s: State, run: seq<Action>, x: Id)
    requires Fires(c, s, run) && x < |s.jobs| && s.jobs[x].pc.Returned?
    ensures x < |After(c, s, run).jobs| && After(c, s, run).jobs[x].pc == s.jobs[x].pc
    decreases |run|
  {
    if run != [] {
      OwnStepsOnly(c, s, run[0], x);
      ReturnedForGood(c, Apply(c, s, run[0]), run[1..], x);
    }
  }

  /** The task x is the same, with at least the events it had. */
  predicate Continues(jobs: seq<Job>, jobs': seq<Job>, x: Id) {
    x < |jobs| && x < |jobs'| && jobs'[x].body == jobs[x].body && jobs[x].log <= jobs'[x].log && jobs[x].enqueued <= jobs'[x].enqueued
  }

  lemma SubHistory(c: Config, s: State, id: Id, x: Id)
    requires SubEnabled(c, s, id) && x < |s.jobs|
    ensures Continues(s.jobs, SubStep(c, s, id).jobs, x) && SubStep(c, s, id).finished == s.finished
  {
  }

  lemma RunHistory(c: Config, s: State, g: Gid, now: int, panics: bool, x: Id)
    requires WorkEnabled(c, s, g) && s.gors[g].pc.Run? && x < |s.jobs|
    ensures Continues(s.jobs, RunStep(s, g, now, panics).jobs, x) && s.finished <= RunStep(s, g, now, panics).finished
  {
  }

  lemma TakeHistory(c: Config, s: State, g: Gid, x: Id)
    requires WorkEnabled(c, s, g) && x < |s.jobs|
    ensures s.gors[g].pc.Scan? ==> Continues(s.jobs, ScanStep(c, s, g).jobs, x) && ScanStep(c, s, g).finished == s.finished
    ensures s.gors[g].pc.Batch? ==> Continues(s.jobs, BatchStep(s, g).jobs, x) && BatchStep(s, g).finished == s.finished
  {
  }

  lemma WorkHistory(c: Config, s: State, g: Gid, now: int, panics: bool, x: Id)
    requires WorkEnabled(c, s, g) && x < |s.jobs|
    ensures Continues(s.jobs, WorkStep(c, s, g, now, panics).jobs, x) && s.finished <= WorkStep(c, s, g, now, panics).finished
  {
    if s.gors[g].pc.Run? {
      RunHistory(c, s, g, now, panics, x);
    } else {
      TakeHistory(c, s, g, x);
    }
  }

  lemma StepHistory(c: Config, s: State, a: Action, x: Id)
    requires Enabled(c, s, a) && x < |s.jobs|
    ensures Continues(s.jobs, Apply(c, s, a).jobs, x) && s.finished <= Apply(c, s, a).finished
  {
    if a.Sub? {
      SubHistory(c, s, a.id, x);
    } else if a.Work? {
      WorkHistory(c, s, a.g, a.now, a.panics, x);
    }
  }

  /** No step of a run erases an event: with RunsOnce, a task that has run never runs again. */
  lemma {:induction false} HistoryKept(c: Config, s: State, run: seq<Action>, x: Id)
    requires Fires(c, s, run) && x < |s.jobs|
    ensures Continues(s.jobs, After(c, s, run).jobs, x) && s.finished <= After(c, s, run).finished
    decreases |run|
  {
    if run != [] {
      StepHistory(c, s, run[0], x);
      HistoryKept(c, Apply(c, s, run[0]), run[1..], x);
    }
  }

  // ---- the scaler's exit ----

  /** No task is queued or held, and no submission is past the closed check without an answer. */
  predicate Drained(s: State) {
    (forall k :: 0 <= k < |s.shards| ==> s.shards[k] == [])
    && Unsent(s.jobs, s.buffer, s.bufOwner) == []
    && (forall g :: 0 <= g < |s.gors| && s.gors[g].pc.Run? ==> |s.gors[g].pc.batch| == 1 && s.gors[g].pc.phase == Releasing)
  }

  /** Once the scaler has exited no task waits in a queue or for a worker. */
  lemma StoppedHoldsNone(c: Config, s: State, id: Id)
    requires Inv(c, s) && s.scaler.Stopped? && id < |s.jobs|
    ensures var st := s.jobs[id].stage; !st.InShard? && !st.InBuffer? && !st.Held? && !st.Exec?
  {
    assert JobOk(c, s.jobs[id]);
  }

  lemma StoppedIsDrained(c: Config, s: State)
    requires Inv(c, s) && s.scaler.Stopped?
    ensures s.Closed() && Drained(s)
  {
    forall k | 0 <= k < |s.shards|
      ensures s.shards[k] == []
    {
      assert ShardOk(c, s.jobs, s.shards[k], k);
      if s.shards[k] != [] {
        StoppedHoldsNone(c, s, s.shards[k][0]);
      }
    }
    var q := Unsent(s.jobs, s.buffer, s.bufOwner);
    if q != [] {
      StoppedHoldsNone(c, s, q[0]);
    }
    forall g | 0 <= g < |s.gors| && s.gors[g].pc.Run?
      ensures |s.gors[g].pc.batch| == 1 && s.gors[g].pc.phase == Releasing
    {
      assert GorOk(c, s.jobs, s.gors[g], g);
      var batch := s.gors[g].pc.batch;
      StoppedHoldsNone(c, s, batch[0]);
      if |batch| > 1 {
        StoppedHoldsNone(c, s, batch[1]);
      }
    }
  }

  lemma SubTurnedAway(c: Config, s: State, x: Id)
    requires Inv(c, s) && s.scaler.Stopped? && SubEnabled(c, s, x) && !AcceptedPc(s.jobs[x].pc)
    ensures |SubStep(c, s, x).jobs| == |s.jobs| && !AcceptedPc(SubStep(c, s, x).jobs[x].pc)
  {
    assert JobOk(c, s.jobs[x]);
    assert TurnedAway(s.jobs[x]) || s.jobs[x].pc.Enter? || s.jobs[x].pc.DropWg?;
    LeavesUnaccepted(c, s, x);
  }

  lemma LeavesUnaccepted(c: Config, s: State, x: Id)
    requires s.Closed() && SubEnabled(c, s, x)
    requires TurnedAway(s.jobs[x]) || s.jobs[x].pc.Enter? || s.jobs[x].pc.DropWg?
    ensures |SubStep(c, s, x).jobs| == |s.jobs| && !AcceptedPc(SubStep(c, s, x).jobs[x].pc)
  {
  }

  lemma SameJobCount(c: Config, s: State, a: Action)
    requires Enabled(c, s, a) && !a.Call?
    ensures |Apply(c, s, a).jobs| == |s.jobs|
  {
    if a.Sub? {
      SubJobCount(c, s, a.id);
    } else if a.Work? {
      WorkJobCount(c, s, a.g, a.now, a.panics);
    }
  }

  /** After the scaler's exit a submission that the pool has not taken stays untaken. */
  lemma TurnedAwayStep(c: Config, s: State, a: Action, x: Id)
    requires Inv(c, s) && s.scaler.Stopped? && Enabled(c, s, a)
    requires x < |s.jobs| ==> !AcceptedPc(s.jobs[x].pc)
    ensures x < |Apply(c, s, a).jobs| ==> !AcceptedPc(Apply(c, s, a).jobs[x].pc)
  {
    if x >= |s.jobs| {
      if !a.Call? {
        SameJobCount(c, s, a);
      }
    } else if !Concerns(a, x) {
      OwnStepsOnly(c, s, a, x);
    } else if a.Sub? {
      SubTurnedAway(c, s, x);
    }
  }

  lemma SubKeepsScaler(c: Config, s: State, id: Id)
    requires SubEnabled(c, s, id)
    ensures SubStep(c, s, id).scaler == s.scaler
  {
  }

  lemma WorkKeepsScaler(c: Config, s: State, g: Gid, now: int, panics: bool)
    requires WorkEnabled(c, s, g)
    ensures WorkStep(c, s, g, now, panics).scaler == s.scaler
  {
  }

  lemma StoppedStays(c: Config, s: State, a: Action)
    requires s.scaler.Stopped? && Enabled(c, s, a)
    ensures Apply(c, s, a).scaler.Stopped?
  {
    if a.Sub? {
      SubKeepsScaler(c, s, a.id);
    } else if a.Work? {
      WorkKeepsScaler(c, s, a.g, a.now, a.panics);
    }
  }

  lemma {:induction false} AfterScalerExit(c: Config, s: State, run: seq<Action>, x: Id)
    requires c.Valid() && Inv(c, s) && s.scaler.Stopped? && Fires(c, s, run)
    requires x < |s.jobs| ==> !AcceptedPc(s.jobs[x].pc)
    ensures var t := After(c, s, run);
      t.Closed() && Drained(t) && (x < |t.jobs| ==> !AcceptedPc(t.jobs[x].pc) && t.jobs[x].log == [])
    decreases |run|
  {
    if run == [] {
      StoppedIsDrained(c, s);
      assert x < |s.jobs| ==> JobOk(c, s.jobs[x]);
    } else {
      StepKeepsInv(c, s, run[0]);
      StoppedStays(c, s, run[0]);
      TurnedAwayStep(c, s, run[0], x);
      AfterScalerExit(c, Apply(c, s, run[0]), run[1..], x);
    }
  }

  /**
   If the scaler has exited then, at that point and after every later run, the pool is closed, no
   task is queued or held, and a submission that the pool had not taken by then, or that arrives
   later, is never taken and never runs.
   */
  lemma ScalerExitIsFinal(c: Config, s: State, run: seq<Action>, x: Id)
    requires c.Valid() && Reachable(c, s) && s.scaler.Stopped? && Fires(c, s, run)
    requires x < |s.jobs| ==> !AcceptedPc(s.jobs[x].pc)
    ensures var t := After(c, s, run);
      t.Closed() && Drained(t) && (x < |t.jobs| ==> !AcceptedPc(t.jobs[x].pc) && t.jobs[x].log == [])
  {
    ReachableInv(c, s);
    AfterScalerExit(c, s, run, x);
  }
}
