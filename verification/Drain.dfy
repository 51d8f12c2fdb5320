/** From every reachable state the pool can finish everything it has taken, without help from new submissions. */
module Drain {
  import opened Counting
  import opened Shards
  import opened Scaling
  import opened TaskBufferSpec
  import opened Protocol
  import opened Invariant
  import opened Steps
  import opened Safety

  // ---- the measure ----

  /** An upper bound on the steps a submit call still takes. */
  function PcWeight(pc: SubPc): nat {
    match pc
    case Enter => 20
    case AddWg => 19
    case CheckClosed => 18
    case ColdLoad => 17
    case ColdCas => 16
    case ColdGet => 15
    case ColdStart(_) => 14
    case Pick => 13
    case Offer(_) => 12
    case Push => 11
    case FullPick => 10
    case FullWait(_) => 9
    case FwdPick => 8
    case FwdSend(_) => 7
    case FwdPop => 6
    case Announce => 5
    case DropPending => 2
    case DropWg => 1
    case Returned(_) => 0
  }

  /** How far a task is from finished or rejected. */
  function StageWeight(st: Stage): nat {
    match st
    case Fresh | CountedOnce | WithSubmitter => 10
    case InBuffer => 9
    case InShard(_) => 8
    case Held(_) => 7
    case Exec(_, Starting) => 6
    case Exec(_, Running) => 5
    case Exec(_, Completing) => 4
    case Exec(_, _) => 3
    case Settled(_) => 2
    case Finished | Dropping | Rejected => 0
  }

  function JobWeight(j: Job): nat {
    PcWeight(j.pc) + StageWeight(j.stage)
  }

  function Weights(jobs: seq<Job>): seq<nat> {
    seq(|jobs|, i requires 0 <= i < |jobs| => JobWeight(jobs[i]))
  }

  function WorkLeft(s: State): nat {
    Sum(Weights(s.jobs))
  }

  /** Every submit call has returned and every accepted task has finished. */
  predicate Quiescent(s: State) {
    s.pending == 0 && s.wg == 0
    && forall id :: 0 <= id < |s.jobs| ==> s.jobs[id].pc.Returned? && (s.jobs[id].pc.accepted ==> id in s.finished)
  }

  lemma LessWork(jobs: seq<Job>, jobs': seq<Job>, id: Id)
    requires |jobs| == |jobs'| && id < |jobs| && JobWeight(jobs'[id]) < JobWeight(jobs[id])
    requires forall x :: 0 <= x < |jobs| ==> JobWeight(jobs'[x]) <= JobWeight(jobs[x])
    ensures Sum(Weights(jobs')) < Sum(Weights(jobs))
  {
    assert Weights(jobs')[id] < Weights(jobs)[id];
    SumOrder(Weights(jobs'), Weights(jobs));
  }

  // ---- runs that only submitters, workers and the scaler make ----

  predicate Internal(a: Action) {
    a.Sub? || a.Work? || a.ScalerStep? || a.Decide? || a.PopIdle?
  }

  predicate AllInternal(run: seq<Action>) {
    forall i :: 0 <= i < |run| ==> Internal(run[i])
  }

  /** Some internal run brings the remaining work below n. */
  ghost predicate Reaches(c: Config, s: State, n: nat) {
    exists run :: Fires(c, s, run) && AllInternal(run) && WorkLeft(After(c, s, run)) < n
  }

  lemma ReachesNow(c: Config, s: State, n: nat)
    requires WorkLeft(s) < n
    ensures Reaches(c, s, n)
  {
    assert Fires(c, s, []) && AllInternal([]) && After(c, s, []) == s;
  }

  lemma ReachesBy(c: Config, s: State, a: Action, n: nat)
    requires Enabled(c, s, a) && Internal(a) && Reaches(c, Apply(c, s, a), n)
    ensures Reaches(c, s, n)
  {
    var t := Apply(c, s, a);
    var run :| Fires(c, t, run) && AllInternal(run) && WorkLeft(After(c, t, run)) < n;
    var whole := [a] + run;
    assert whole[0] == a && whole[1..] == run;
    assert Fires(c, s, whole) && After(c, s, whole) == After(c, t, run);
  }

  // ---- submitters ----

  /** A submit call waits only for taskMu or for room in its shard. */
  predicate Waits(c: Config, s: State, id: Id) {
    id < |s.jobs| &&
    (s.jobs[id].pc.Returned? || (s.jobs[id].pc.FullWait? && !HasRoom(c, s, s.jobs[id].pc.k))
     || (s.jobs[id].pc.Push? && s.bufOwner.Some?))
  }

  lemma SubReady(c: Config, s: State, id: Id)
    requires c.Valid() && Inv(c, s) && id < |s.jobs| && !Waits(c, s, id)
    ensures SubEnabled(c, s, id)
  {
    assert JobOk(c, s.jobs[id]);
    ShardInRange(0, c.shards);
    if IsForwarding(s.jobs[id].pc) {
      assert s.bufOwner == Some(id);
      assert s.jobs[id].pc.FwdSend? ==> Unsent(s.jobs, s.buffer, s.bufOwner) == s.buffer;
    }
  }

  lemma ForwardWeights(c: Config, s: State, id: Id)
    requires BufferOk(s.jobs, s.buffer, s.bufOwner) && SubEnabled(c, s, id) && s.jobs[id].pc.FwdSend?
    ensures var jobs' := SubStep(c, s, id).jobs;
      |jobs'| == |s.jobs| && JobWeight(jobs'[id]) < JobWeight(s.jobs[id])
      && forall x :: 0 <= x < |s.jobs| ==> JobWeight(jobs'[x]) <= JobWeight(s.jobs[x])
  {
    assert s.bufOwner == Some(id) && Unsent(s.jobs, s.buffer, s.bufOwner) == s.buffer;
    assert s.jobs[s.buffer[0]].stage.InBuffer?;
    SentWeights(c, s, id);
  }

  lemma SentWeights(c: Config, s: State, id: Id)
    requires SubEnabled(c, s, id) && s.jobs[id].pc.FwdSend? && s.jobs[s.buffer[0]].stage.InBuffer?
    ensures var jobs' := SubStep(c, s, id).jobs;
      |jobs'| == |s.jobs| && JobWeight(jobs'[id]) < JobWeight(s.jobs[id])
      && forall x :: 0 <= x < |s.jobs| ==> JobWeight(jobs'[x]) <= JobWeight(s.jobs[x])
  {
  }

  lemma OwnWeight(c: Config, s: State, id: Id)
    requires SubEnabled(c, s, id) && JobOk(c, s.jobs[id]) && !s.jobs[id].pc.FwdSend?
    ensures |SubStep(c, s, id).jobs| == |s.jobs| && JobWeight(SubStep(c, s, id).jobs[id]) < JobWeight(s.jobs[id])
  {
  }

  lemma OtherJobs(c: Config, s: State, id: Id, x: Id)
    requires SubEnabled(c, s, id) && !s.jobs[id].pc.FwdSend? && x < |s.jobs| && x != id
    ensures |SubStep(c, s, id).jobs| == |s.jobs| && SubStep(c, s, id).jobs[x] == s.jobs[x]
  {
  }

  lemma SubWeights(c: Config, s: State, id: Id)
    requires Inv(c, s) && SubEnabled(c, s, id)
    ensures var jobs' := SubStep(c, s, id).jobs;
      |jobs'| == |s.jobs| && JobWeight(jobs'[id]) < JobWeight(s.jobs[id])
      && forall x :: 0 <= x < |s.jobs| ==> JobWeight(jobs'[x]) <= JobWeight(s.jobs[x])
  {
    if s.jobs[id].pc.FwdSend? {
      ForwardWeights(c, s, id);
    } else {
      OwnWeight(c, s, id);
      forall x | 0 <= x < |s.jobs| && x != id
        ensures SubStep(c, s, id).jobs[x] == s.jobs[x]
      {
        OtherJobs(c, s, id, x);
      }
    }
  }

  lemma SubProgress(c: Config, s: State, id: Id)
    requires c.Valid() && Inv(c, s) && id < |s.jobs| && !Waits(c, s, id)
    ensures Reaches(c, s, WorkLeft(s))
  {
    SubReady(c, s, id);
    SubWeights(c, s, id);
    LessWork(s.jobs, SubStep(c, s, id).jobs, id);
    ReachesNow(c, Apply(c, s, Sub(id)), WorkLeft(s));
    ReachesBy(c, s, Sub(id), WorkLeft(s));
  }

  // ---- workers ----

  lemma WorkReady(c: Config, s: State, g: Gid)
    requires c.Valid() && Inv(c, s) && g < |s.gors| && !s.gors[g].pc.Exited? && (s.gors[g].pc.Batch? ==> s.bufOwner.None?)
    ensures WorkEnabled(c, s, g)
  {
    var w := s.gors[g];
    assert GorOk(c, s.jobs, w, g);
    ProbeIs(w.cursor, 0, c.shards);
    if w.pc.Scan? && w.pc.i < c.shards {
      ProbeIs(w.cursor, w.pc.i, c.shards);
      var k := ProbeShard(w.cursor, w.pc.i, c.shards);
      assert ShardOk(c, s.jobs, s.shards[k], k);
    }
  }

  lemma RunWeights(c: Config, s: State, g: Gid)
    requires JobsOk(c, s.jobs) && GorsOk(c, s.jobs, s.gors) && WorkEnabled(c, s, g) && s.gors[g].pc.Run?
    ensures var jobs' := RunStep(s, g, 0, false).jobs; var id := s.gors[g].pc.batch[0];
      |jobs'| == |s.jobs| && JobWeight(jobs'[id]) < JobWeight(s.jobs[id])
      && forall x :: 0 <= x < |s.jobs| ==> JobWeight(jobs'[x]) <= JobWeight(s.jobs[x])
  {
    assert GorOk(c, s.jobs, s.gors[g], g);
    var id := s.gors[g].pc.batch[0];
    assert JobOk(c, s.jobs[id]) && s.jobs[id].stage == ExpectedStage(g, s.gors[g].pc.phase, 0);
  }

  lemma RunProgress(c: Config, s: State, g: Gid)
    requires c.Valid() && Inv(c, s) && g < |s.gors| && s.gors[g].pc.Run?
    ensures Reaches(c, s, WorkLeft(s))
  {
    WorkReady(c, s, g);
    RunWeights(c, s, g);
    LessWork(s.jobs, RunStep(s, g, 0, false).jobs, s.gors[g].pc.batch[0]);
    ReachesNow(c, Apply(c, s, Work(g, 0, false)), WorkLeft(s));
    ReachesBy(c, s, Work(g, 0, false), WorkLeft(s));
  }

  // ---- nobody can move a task directly ----

  /** All submit calls wait and no worker holds a task, although n units of work remain. */
  predicate Quiet(c: Config, s: State, n: nat) {
    Inv(c, s) && WorkLeft(s) == n > 0 && s.bufOwner.None?
    && (forall id :: 0 <= id < |s.jobs| ==> Waits(c, s, id))
    && (forall g :: 0 <= g < |s.gors| ==> !s.gors[g].pc.Run?)
  }

  predicate HasQueued(s: State) {
    s.buffer != [] || exists k :: 0 <= k < |s.shards| && s.shards[k] != []
  }

  /** Then some task is queued. */
  lemma QuietIsQueued(c: Config, s: State, n: nat)
    requires c.Valid() && Quiet(c, s, n)
    ensures HasQueued(s)
  {
    SumPositive(Weights(s.jobs));
    var id :| 0 <= id < |s.jobs| && Weights(s.jobs)[id] > 0;
    assert JobOk(c, s.jobs[id]) && Waits(c, s, id);
    if s.jobs[id].pc.FullWait? {
      assert s.shards[s.jobs[id].pc.k] != [];
    } else {
      var p := StageHasPlace(c, s, id);
      match p
      case ShardSlot(k, i) => assert s.shards[k] != [];
      case BufferSlot(i) => assert s.buffer != [];
      case BatchSlot(g, i) =>
      case FinishedSlot(i) => PlaceHasStage(c, s, p, id);
    }
  }

  /** A step that moves no task leaves the situation as it is. */
  lemma QuietKept(c: Config, s: State, t: State, n: nat)
    requires Quiet(c, s, n) && Inv(c, t)
    requires t.jobs == s.jobs && t.shards == s.shards && t.bufOwner == s.bufOwner
    requires forall g :: 0 <= g < |t.gors| ==> !t.gors[g].pc.Run?
    ensures Quiet(c, t, n)
  {
    forall x | 0 <= x < |t.jobs|
      ensures Waits(c, t, x)
    {
      assert Waits(c, s, x);
    }
  }

  lemma BatchTakeWork(s: State, g: Gid)
    requires BufferOk(s.jobs, s.buffer, s.bufOwner) && g < |s.gors| && s.bufOwner.None? && s.buffer != []
    ensures WorkLeft(BatchStep(s, g)) < WorkLeft(s)
  {
    var taken := TakeBatch(s.buffer, BATCH_SIZE);
    var jobs' := HoldAll(s.jobs, taken, g);
    assert Unsent(s.jobs, s.buffer, s.bufOwner) == s.buffer;
    HeldWeights(s.jobs, taken, g);
    LessWork(s.jobs, jobs', taken[0]);
  }

  lemma HeldWeights(jobs: seq<Job>, taken: seq<Id>, g: Gid)
    requires forall i :: 0 <= i < |taken| ==> taken[i] < |jobs| && jobs[taken[i]].stage.InBuffer?
    ensures forall x :: 0 <= x < |jobs| ==> JobWeight(HoldAll(jobs, taken, g)[x]) <= JobWeight(jobs[x])
    ensures taken != [] ==> JobWeight(HoldAll(jobs, taken, g)[taken[0]]) < JobWeight(jobs[taken[0]])
  {
  }

  lemma ScanTakeWork(c: Config, s: State, g: Gid)
    requires Inv(c, s) && WorkEnabled(c, s, g)
    requires s.gors[g].pc.Scan? && s.gors[g].pc.i < c.shards && s.shards[Probe(c, s, g)] != []
    ensures WorkLeft(ScanStep(c, s, g)) < WorkLeft(s)
  {
    var k := Probe(c, s, g);
    assert ShardOk(c, s.jobs, s.shards[k], k);
    var id := s.shards[k][0];
    assert JobOk(c, s.jobs[id]);
    LessWork(s.jobs, s.jobs[id := s.jobs[id].(stage := Held(g))], id);
  }

  /** A worker that can take a queued task takes it. */
  predicate CanTake(c: Config, s: State, g: Gid) {
    WorkEnabled(c, s, g) &&
    ((s.gors[g].pc.Batch? && s.buffer != [])
     || (s.gors[g].pc.Scan? && s.gors[g].pc.i < c.shards && s.shards[Probe(c, s, g)] != []))
  }

  lemma TakeProgress(c: Config, s: State, g: Gid, n: nat)
    requires c.Valid() && Quiet(c, s, n) && CanTake(c, s, g)
    ensures Reaches(c, s, n)
  {
    var a := Work(g, 0, false);
    if s.gors[g].pc.Batch? {
      BatchTakeWork(s, g);
    } else {
      ScanTakeWork(c, s, g);
    }
    ReachesNow(c, Apply(c, s, a), n);
    ReachesBy(c, s, a, n);
  }

  /** Where a worker goes when it takes nothing. */
  function AfterIdle(c: Config, pc: WorkerPc): WorkerPc {
    match pc
    case Begin => Scan(0)
    case Scan(i) => if i >= c.shards then Batch else Scan(i + 1)
    case Batch => ParkDec
    case ParkDec => ParkIdle
    case _ => Exited
  }

  /** A step of an unburdened worker that takes nothing moves only that worker. */
  lemma IdleStep(c: Config, s: State, g: Gid, n: nat) returns (t: State)
    requires c.Valid() && Quiet(c, s, n) && WorkEnabled(c, s, g) && !CanTake(c, s, g)
    ensures t == Apply(c, s, Work(g, 0, false)) && Quiet(c, t, n)
    ensures t.buffer == s.buffer && t.shards == s.shards && t.scaler == s.scaler
    ensures |t.gors| == |s.gors| && t.gors == s.gors[g := t.gors[g]] && t.gors[g].cursor == s.gors[g].cursor
    ensures t.gors[g].pc == AfterIdle(c, s.gors[g].pc)
  {
    var a := Work(g, 0, false);
    StepKeepsInv(c, s, a);
    t := Apply(c, s, a);
    QuietKept(c, s, t, n);
  }

  // ---- a worker that starts its scan while tasks are queued finds one ----

  /** The first i probes of the scan found their shards empty. */
  predicate SeenEmpty(c: Config, s: State, cursor: nat, i: nat)
    requires c.shards >= 1
  {
    forall j :: 0 <= j < i && ProbeShard(cursor, j, c.shards) < |s.shards| ==> s.shards[ProbeShard(cursor, j, c.shards)] == []
  }

  /** A complete scan that saw only empty shards leaves only the buffer. */
  lemma ScanExhausted(c: Config, s: State, cursor: nat, n: nat)
    requires c.Valid() && Quiet(c, s, n) && c.shards >= 1 && SeenEmpty(c, s, cursor, c.shards)
    ensures s.buffer != []
  {
    QuietIsQueued(c, s, n);
    if s.buffer == [] {
      var k :| 0 <= k < |s.shards| && s.shards[k] != [];
      var j := ScanCovers(cursor, c.shards, k);
    }
  }

  lemma SeenOneMore(c: Config, s: State, t: State, g: Gid)
    requires c.shards >= 1 && g < |s.gors| && s.gors[g].pc.Scan? && s.gors[g].pc.i < c.shards && t.shards == s.shards
    requires WorkEnabled(c, s, g) && !CanTake(c, s, g) && SeenEmpty(c, s, s.gors[g].cursor, s.gors[g].pc.i)
    ensures SeenEmpty(c, t, s.gors[g].cursor, s.gors[g].pc.i + 1)
  {
  }

  lemma {:induction false} ScanFinds(c: Config, s: State, g: Gid, n: nat)
    requires c.Valid() && Quiet(c, s, n) && g < |s.gors| && s.gors[g].pc.Scan? && s.gors[g].pc.i <= c.shards && c.shards >= 1
    requires SeenEmpty(c, s, s.gors[g].cursor, s.gors[g].pc.i)
    ensures Reaches(c, s, n)
    decreases c.shards - s.gors[g].pc.i
  {
    WorkReady(c, s, g);
    if CanTake(c, s, g) {
      TakeProgress(c, s, g, n);
    } else {
      var t := IdleStep(c, s, g, n);
      if s.gors[g].pc.i < c.shards {
        SeenOneMore(c, s, t, g);
        ScanFinds(c, t, g, n);
      } else {
        ScanExhausted(c, s, s.gors[g].cursor, n);
        WorkReady(c, t, g);
        TakeProgress(c, t, g, n);
      }
      ReachesBy(c, s, Work(g, 0, false), n);
    }
  }

  lemma FreshWorkerFinds(c: Config, s: State, g: Gid, n: nat)
    requires c.Valid() && Quiet(c, s, n) && g < |s.gors| && s.gors[g].pc.Begin?
    ensures Reaches(c, s, n)
  {
    ShardInRange(0, c.shards);
    WorkReady(c, s, g);
    var t := IdleStep(c, s, g, n);
    ScanFinds(c, t, g, n);
    ReachesBy(c, s, Work(g, 0, false), n);
  }

  // ---- with no worker left, the scaler starts one ----

  /** Quiet, and every worker goroutine has parked. */
  predicate Deserted(c: Config, s: State, n: nat) {
    Quiet(c, s, n) && forall g :: 0 <= g < |s.gors| ==> s.gors[g].pc.Exited?
  }

  /** Then the running count is what the scaler has reserved, tasks are pending, and the scaler lives. */
  lemma DesertedFacts(c: Config, s: State, n: nat)
    requires c.Valid() && Deserted(c, s, n)
    ensures s.running == ScalerReserved(s.scaler) && s.pending > 0 && !s.scaler.Stopped?
  {
    CountPositive(s.gors, Alive);
    CountPositive(s.jobs, Reserving);
    CountPositive(s.jobs, InPending);
    forall id | 0 <= id < |s.jobs|
      ensures !Reserving(s.jobs[id])
    {
      assert Waits(c, s, id);
    }
    QuietIsQueued(c, s, n);
    if s.scaler.Stopped? {
      StoppedIsDrained(c, s);
    }
    if s.buffer != [] {
      assert Unsent(s.jobs, s.buffer, s.bufOwner) == s.buffer;
      assert InPending(s.jobs[s.buffer[0]]);
    } else {
      var k :| 0 <= k < |s.shards| && s.shards[k] != [];
      assert ShardOk(c, s.jobs, s.shards[k], k);
      assert InPending(s.jobs[s.shards[k][0]]);
    }
  }

  /** A scaler step that starts no goroutine keeps the pool deserted. */
  lemma ScalerMoves(c: Config, s: State, a: Action, n: nat) returns (t: State)
    requires c.Valid() && Deserted(c, s, n) && Enabled(c, s, a)
    requires (a.ScalerStep? && !s.scaler.Start?) || a.Decide? || a.PopIdle?
    ensures t == Apply(c, s, a) && Deserted(c, t, n)
  {
    StepKeepsInv(c, s, a);
    t := Apply(c, s, a);
    QuietKept(c, s, t, n);
  }

  /** The scaler's start adds one goroutine at Begin and leaves jobs, queues and lock alone. */
  lemma StartLaunches(c: Config, s: State)
    requires ScalerEnabled(c, s) && s.scaler.Start?
    ensures var t := ScalerApply(c, s);
      t.jobs == s.jobs && t.shards == s.shards && t.buffer == s.buffer && t.bufOwner == s.bufOwner
      && |t.gors| == |s.gors| + 1 && t.gors[..|s.gors|] == s.gors && t.gors[|s.gors|].pc.Begin?
  {
  }

  lemma StartKeepsQuiet(c: Config, s: State, n: nat) returns (t: State)
    requires c.Valid() && Deserted(c, s, n) && s.scaler.Start? && ScalerEnabled(c, s)
    ensures t == ScalerApply(c, s) && Quiet(c, t, n) && |t.gors| == |s.gors| + 1 && t.gors[|s.gors|].pc.Begin?
  {
    StartLaunches(c, s);
    ScalerKeepsInv(c, s);
    t := ScalerApply(c, s);
    forall g | 0 <= g < |t.gors|
      ensures !t.gors[g].pc.Run?
    {
      assert g < |s.gors| ==> t.gors[g] == t.gors[..|s.gors|][g];
    }
    QuietKept(c, s, t, n);
  }

  lemma FromStart(c: Config, s: State, n: nat)
    requires c.Valid() && Deserted(c, s, n) && s.scaler.Start?
    ensures Reaches(c, s, n)
  {
    ShardInRange(0, c.shards);
    var t := StartKeepsQuiet(c, s, n);
    FreshWorkerFinds(c, t, |s.gors|, n);
    ReachesBy(c, s, ScalerStep, n);
  }

  lemma FromSpawn(c: Config, s: State, n: nat)
    requires c.Valid() && Deserted(c, s, n) && s.scaler.Spawn? && s.scaler.left > 0
    ensures Reaches(c, s, n)
  {
    var t := ScalerMoves(c, s, PopIdle(0), n);
    FromStart(c, t, n);
    ReachesBy(c, s, PopIdle(0), n);
  }

  lemma FromAdd(c: Config, s: State, n: nat)
    requires c.Valid() && Deserted(c, s, n) && s.scaler.Add?
    ensures Reaches(c, s, n)
  {
    ShardInRange(0, c.shards);
    var t := ScalerMoves(c, s, ScalerStep, n);
    FromSpawn(c, t, n);
    ReachesBy(c, s, ScalerStep, n);
  }

  lemma RecheckGrants(c: Config, s: State)
    requires c.Valid() && ScalerEnabled(c, s) && s.scaler.Recheck? && s.scaler.demand > 0 && s.running == 0
    ensures ScalerApply(c, s).scaler.Add?
  {
  }

  lemma FromRecheck(c: Config, s: State, n: nat)
    requires c.Valid() && Deserted(c, s, n) && s.scaler.Recheck?
    ensures Reaches(c, s, n)
  {
    ShardInRange(0, c.shards);
    DesertedFacts(c, s, n);
    RecheckGrants(c, s);
    var t := ScalerMoves(c, s, ScalerStep, n);
    FromAdd(c, t, n);
    ReachesBy(c, s, ScalerStep, n);
  }

  /** A tick that read no running workers and some backlog asks for at least one worker. */
  lemma ColdDemand(k: Knobs, depth: int, backlog: int)
    requires k.Valid() && backlog > 0
    ensures Demand(k, Readings(0.0, 0.0, 0.0, 0, depth, backlog, 0, false)) > 0
  {
  }

  lemma FromColdBacklog(c: Config, s: State, n: nat)
    requires c.Valid() && Deserted(c, s, n) && s.scaler.SawBacklog? && s.scaler.r == 0 && s.scaler.backlog > 0
    ensures Reaches(c, s, n)
  {
    var a := Decide(0.0, 0.0, 0.0, 0, false);
    ColdDemand(c.knobs, s.scaler.depth, s.scaler.backlog);
    var t := ScalerMoves(c, s, a, n);
    FromRecheck(c, t, n);
    ReachesBy(c, s, a, n);
  }

  lemma FromAsleep(c: Config, s: State, n: nat)
    requires c.Valid() && Deserted(c, s, n) && s.scaler.Asleep?
    ensures Reaches(c, s, n)
  {
    ShardInRange(0, c.shards);
    DesertedFacts(c, s, n);
    var t1 := ScalerMoves(c, s, ScalerStep, n);
    var t2 := ScalerMoves(c, t1, ScalerStep, n);
    var t3 := ScalerMoves(c, t2, ScalerStep, n);
    FromColdBacklog(c, t3, n);
    ReachesBy(c, t2, ScalerStep, n);
    ReachesBy(c, t1, ScalerStep, n);
    ReachesBy(c, s, ScalerStep, n);
  }

  /** The end of a tick: the exit test fails because tasks are pending. */
  lemma FromReadPending(c: Config, s: State, n: nat)
    requires c.Valid() && Deserted(c, s, n) && s.scaler.ReadPending?
    ensures Reaches(c, s, n)
  {
    ShardInRange(0, c.shards);
    DesertedFacts(c, s, n);
    var t := ScalerMoves(c, s, ScalerStep, n);
    FromAsleep(c, t, n);
    ReachesBy(c, s, ScalerStep, n);
  }

  lemma FromReadClosed(c: Config, s: State, n: nat)
    requires c.Valid() && Deserted(c, s, n) && s.scaler.ReadClosed?
    ensures Reaches(c, s, n)
  {
    ShardInRange(0, c.shards);
    var t := ScalerMoves(c, s, ScalerStep, n);
    if t.scaler.Asleep? {
      FromAsleep(c, t, n);
    } else {
      FromReadPending(c, t, n);
    }
    ReachesBy(c, s, ScalerStep, n);
  }

  /** A tick whose readings are stale either starts a worker all the same or ends. */
  lemma FromBacklog(c: Config, s: State, n: nat)
    requires c.Valid() && Deserted(c, s, n) && s.scaler.SawBacklog?
    ensures Reaches(c, s, n)
  {
    var a := Decide(0.0, 0.0, 0.0, 0, false);
    var t := ScalerMoves(c, s, a, n);
    if t.scaler.Recheck? {
      FromRecheck(c, t, n);
    } else {
      FromReadClosed(c, t, n);
    }
    ReachesBy(c, s, a, n);
  }

  lemma FromReading(c: Config, s: State, n: nat)
    requires c.Valid() && Deserted(c, s, n) && (s.scaler.SawRunning? || s.scaler.SawDepth?)
    ensures Reaches(c, s, n)
    decreases s.scaler.SawRunning?
  {
    ShardInRange(0, c.shards);
    var t := ScalerMoves(c, s, ScalerStep, n);
    if t.scaler.SawDepth? {
      FromReading(c, t, n);
    } else {
      FromBacklog(c, t, n);
    }
    ReachesBy(c, s, ScalerStep, n);
  }

  /** Wherever the scaler stands, its next ticks start a worker, and that worker finds a task. */
  lemma ScalerRescues(c: Config, s: State, n: nat)
    requires c.Valid() && Deserted(c, s, n)
    ensures Reaches(c, s, n)
  {
    ShardInRange(0, c.shards);
    DesertedFacts(c, s, n);
    match s.scaler
    case Asleep => FromAsleep(c, s, n);
    case SawRunning(_) => FromReading(c, s, n);
    case SawDepth(_, _) => FromReading(c, s, n);
    case SawBacklog(_, _, _) => FromBacklog(c, s, n);
    case Recheck(_) => FromRecheck(c, s, n);
    case Add(_, _) => FromAdd(c, s, n);
    case Start(_, _) => FromStart(c, s, n);
    case ReadClosed => FromReadClosed(c, s, n);
    case ReadPending => FromReadPending(c, s, n);
    case Spawn(left) =>
      if left > 0 {
        FromSpawn(c, s, n);
      } else {
        var t := ScalerMoves(c, s, ScalerStep, n);
        FromReadClosed(c, t, n);
        ReachesBy(c, s, ScalerStep, n);
      }
  }

  // ---- workers that are still scanning or parking ----

  function ScanWeight(c: Config, w: Goroutine): nat {
    match w.pc
    case Begin => c.shards + 6
    case Scan(i) => if i <= c.shards then c.shards + 5 - i else 4
    case Batch => 3
    case ParkDec => 2
    case ParkIdle => 1
    case _ => 0
  }

  function ScanWeights(c: Config, gors: seq<Goroutine>): seq<nat> {
    seq(|gors|, g requires 0 <= g < |gors| => ScanWeight(c, gors[g]))
  }

  lemma LessScan(c: Config, gors: seq<Goroutine>, g: Gid, w: Goroutine)
    requires g < |gors| && ScanWeight(c, w) < ScanWeight(c, gors[g])
    ensures Sum(ScanWeights(c, gors[g := w])) < Sum(ScanWeights(c, gors))
  {
    assert ScanWeights(c, gors[g := w])[g] < ScanWeights(c, gors)[g];
    SumOrder(ScanWeights(c, gors[g := w]), ScanWeights(c, gors));
  }

  /** A worker that takes nothing comes closer to its exit. */
  lemma IdleLess(c: Config, gors: seq<Goroutine>, gors': seq<Goroutine>, g: Gid)
    requires g < |gors| == |gors'| && gors' == gors[g := gors'[g]] && gors'[g].pc == AfterIdle(c, gors[g].pc)
    requires !gors[g].pc.Run? && !gors[g].pc.Exited?
    ensures Sum(ScanWeights(c, gors')) < Sum(ScanWeights(c, gors))
  {
    LessScan(c, gors, g, gors'[g]);
  }

  /** Each remaining worker takes a queued task or parks; then the scaler takes over. */
  lemma {:induction false} QuietProgress(c: Config, s: State, n: nat)
    requires c.Valid() && Quiet(c, s, n)
    ensures Reaches(c, s, n)
    decreases Sum(ScanWeights(c, s.gors))
  {
    if g :| 0 <= g < |s.gors| && !s.gors[g].pc.Exited? {
      WorkReady(c, s, g);
      if CanTake(c, s, g) {
        TakeProgress(c, s, g, n);
      } else {
        var t := IdleStep(c, s, g, n);
        IdleLess(c, s.gors, t.gors, g);
        QuietProgress(c, t, n);
        ReachesBy(c, s, Work(g, 0, false), n);
      }
    } else {
      ScalerRescues(c, s, n);
    }
  }

  /** While work remains, some internal run does part of it. */
  lemma Progress(c: Config, s: State)
    requires c.Valid() && Inv(c, s) && WorkLeft(s) > 0
    ensures Reaches(c, s, WorkLeft(s))
  {
    if s.bufOwner.Some? {
      SubProgress(c, s, s.bufOwner.value);
    } else if id :| 0 <= id < |s.jobs| && !Waits(c, s, id) {
      SubProgress(c, s, id);
    } else if g :| 0 <= g < |s.gors| && s.gors[g].pc.Run? {
      RunProgress(c, s, g);
    } else {
      QuietProgress(c, s, WorkLeft(s));
    }
  }

  lemma {:induction false} FiresConcat(c: Config, s: State, run: seq<Action>, more: seq<Action>)
    requires Fires(c, s, run) && Fires(c, After(c, s, run), more)
    ensures Fires(c, s, run + more) && After(c, s, run + more) == After(c, After(c, s, run), more)
    decreases |run|
  {
    if run == [] {
      assert run + more == more;
    } else {
      FiresConcat(c, Apply(c, s, run[0]), run[1..], more);
      ConsConcat(run, more);
      FiresCons(c, s, run[0], run[1..] + more);
    }
  }

  lemma FiresCons(c: Config, s: State, a: Action, rest: seq<Action>)
    requires Enabled(c, s, a) && Fires(c, Apply(c, s, a), rest)
    ensures Fires(c, s, [a] + rest) && After(c, s, [a] + rest) == After(c, Apply(c, s, a), rest)
  {
    assert ([a] + rest)[1..] == rest;
  }

  /** No work left means that every submit call has its answer and every accepted task has run. */
  lemma NoWorkLeft(c: Config, s: State)
    requires Inv(c, s) && WorkLeft(s) == 0
    ensures Quiescent(s)
  {
    forall id | 0 <= id < |s.jobs|
      ensures JobWeight(s.jobs[id]) == 0
    {
      if JobWeight(s.jobs[id]) > 0 {
        var zero := seq(|s.jobs|, _ => 0);
        assert zero[id] < Weights(s.jobs)[id];
        SumOrder(zero, Weights(s.jobs));
      }
    }
    forall id | 0 <= id < |s.jobs|
      ensures s.jobs[id].pc.Returned? && (s.jobs[id].pc.accepted ==> id in s.finished)
      ensures !InPending(s.jobs[id]) && !InWg(s.jobs[id])
    {
      assert JobOk(c, s.jobs[id]) && JobWeight(s.jobs[id]) == 0;
    }
    CountPositive(s.jobs, InPending);
    CountPositive(s.jobs, InWg);
  }

  lemma {:induction false} DrainsFrom(c: Config, s: State) returns (run: seq<Action>)
    requires c.Valid() && Inv(c, s)
    ensures Fires(c, s, run) && AllInternal(run) && Quiescent(After(c, s, run))
    decreases WorkLeft(s)
  {
    if WorkLeft(s) == 0 {
      run := [];
      NoWorkLeft(c, s);
    } else {
      Progress(c, s);
      var first :| Fires(c, s, first) && AllInternal(first) && WorkLeft(After(c, s, first)) < WorkLeft(s);
      RunKeepsInv(c, s, first);
      var rest := DrainsFrom(c, After(c, s, first));
      FiresConcat(c, s, first, rest);
      run := first + rest;
    }
  }

  /**
   Drainability: from every reachable state, before or after Close, a finite run of submitter, worker
   and scaler steps alone reaches a state where pendingTasks and the WaitGroup are 0, every submit
   call has returned and every accepted task has finished. Nothing is ever stranded.
   */
  lemma Drains(c: Config, s: State)
    requires c.Valid() && Reachable(c, s)
    ensures exists run :: Fires(c, s, run) && AllInternal(run) && Quiescent(After(c, s, run))
  {
    ReachableInv(c, s);
    var run := DrainsFrom(c, s);
  }
}
