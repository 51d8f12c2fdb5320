/**
 The pool as an interleaved state machine. The agents are any number of submit calls, worker
 goroutines, one scaler, one winning Close and one cleaner; an action is one atomic operation,
 one channel operation or one critical section of one agent.
 */
module Protocol {
  import opened Shards
  import opened Scaling
  import opened Tasks
  import opened TaskBufferSpec

  type Id = nat   // a submit call and the task it carries
  type Gid = nat  // a worker goroutine
  type Obj = nat  // a worker object

  datatype Option<T> = None | Some(value: T)

  datatype Config = Config(shards: nat, shardCap: nat, nonblock: bool, knobs: Knobs) {
    ghost predicate Valid() {
      PowerOfTwo(shards) && shards <= CURSOR_RANGE && shardCap >= 1 && knobs.Valid()
    }
  }

  /** Where a submit call stands. */
  datatype SubPc =
    | Enter | AddWg | CheckClosed
    | ColdLoad | ColdCas | ColdGet | ColdStart(obj: Obj)
    | Pick | Offer(k: nat) | Push
    | FwdPick | FwdSend(k: nat) | FwdPop      // taskMu is held
    | FullPick | FullWait(k: nat)
    | Announce
    | DropPending | DropWg
    | Returned(accepted: bool)

  /** The steps of runTask, preceded by the write of lastActiveAt. */
  datatype Phase = Touching | Starting | Running | Completing | Settling | Releasing

  /** Auxiliary: where a task is. No action reads it. */
  datatype Stage =
    | Fresh | CountedOnce | WithSubmitter
    | InShard(k: nat) | InBuffer
    | Held(g: Gid) | Exec(g: Gid, phase: Phase) | Settled(g: Gid)
    | Finished
    | Dropping | Rejected

  datatype Event = Started | Ran(panicked: bool) | Completed

  datatype Job = Job(body: Task, pc: SubPc, stage: Stage, enqueued: nat, log: seq<Event>)

  datatype WorkerPc =
    | Begin
    | Scan(i: nat)
    | Batch
    | Run(batch: seq<Id>, phase: Phase)
    | ParkDec | ParkIdle
    | Exited

  datatype Goroutine = Goroutine(obj: Obj, cursor: nat, pc: WorkerPc)

  /** Auxiliary: who may touch a worker object. No action reads it. */
  datatype Owner = ColdStarter(id: Id) | Scaler | Worker(g: Gid) | Parked | Collected

  datatype ClosePc = Open | Flagged | BufferShut | ChannelShut

  datatype ScalerPc =
    | Asleep
    | SawRunning(r: int)
    | SawDepth(r: int, depth: int)
    | SawBacklog(r: int, depth: int, backlog: int)
    | Recheck(demand: int)
    | Add(current: int, actual: int)
    | Spawn(left: nat)
    | Start(left: nat, obj: Obj)
    | ReadClosed | ReadPending
    | Stopped

  datatype State = State(
    jobs: seq<Job>,
    shards: seq<seq<Id>>,
    buffer: seq<Id>,
    bufOwner: Option<Id>,
    pending: int,
    wg: int,
    running: int,
    closer: ClosePc,
    gors: seq<Goroutine>,
    idle: seq<Obj>,
    owner: seq<Owner>,
    lastActive: seq<int>,
    scaler: ScalerPc,
    sendSeq: nat,
    workerSeq: nat,
    finished: seq<Id>)
  {
    predicate Closed() { closer != Open }
    predicate OverflowClosed() { closer == BufferShut || closer == ChannelShut }
  }

  datatype Action =
    | Call(body: Task)
    | Sub(id: Id)
    | Cancel(id: Id)
    | Shut(id: Id)
    | Work(g: Gid, now: int, panics: bool)
    | CloseStep
    | ScalerStep
    | Decide(submitMed: real, consumeMed: real, exitMed: real, queued: nat, eligible: bool)
    | PopIdle(i: nat)
    | Clean(cutoff: int)

  function Init(c: Config): State {
    State([], seq(c.shards, _ => []), [], None, 0, 0, 0, Open, [], [], [], [], Asleep, 0, 0, [])
  }

  // ---- submit (pool.go:311-398) ----

  function WithJob(s: State, id: Id, pc: SubPc, stage: Stage): State
    requires id < |s.jobs|
  {
    s.(jobs := s.jobs[id := s.jobs[id].(pc := pc, stage := stage)])
  }

  function WithPc(s: State, id: Id, pc: SubPc): State
    requires id < |s.jobs|
  {
    WithJob(s, id, pc, s.jobs[id].stage)
  }

  predicate HasRoom(c: Config, s: State, k: nat) {
    k < |s.shards| && |s.shards[k]| < c.shardCap
  }

  function Send(s: State, k: nat, id: Id): State
    requires k < |s.shards|
  {
    s.(shards := s.shards[k := s.shards[k] + [id]])
  }

  function NextSeq(s: State): State {
    s.(sendSeq := NextCursor(s.sendSeq))
  }

  /** startWorker: the goroutine begins with a round-robin scan start. */
  function Launch(c: Config, s: State, obj: Obj): State
    requires c.shards >= 1 && obj < |s.owner|
  {
    var w := NextCursor(s.workerSeq);
    s.(workerSeq := w,
       gors := s.gors + [Goroutine(obj, ShardOf(w, c.shards), Begin)],
       owner := s.owner[obj := Worker(|s.gors|)])
  }

  predicate SubEnabled(c: Config, s: State, id: Id) {
    c.shards >= 1 && id < |s.jobs| &&
    match s.jobs[id].pc
    case Push => s.bufOwner.None?
    case Offer(k) => k < |s.shards|
    case FwdSend(k) => k < |s.shards| && |s.buffer| > 0 && s.buffer[0] < |s.jobs|
    case FwdPop => |s.buffer| > 0
    case FullWait(k) => HasRoom(c, s, k)
    case ColdStart(obj) => obj < |s.owner|
    case Returned(_) => false
    case _ => true
  }

  function ColdStep(c: Config, s: State, id: Id): State
    requires SubEnabled(c, s, id)
  {
    match s.jobs[id].pc
    case ColdLoad => WithPc(s, id, if s.running == 0 then ColdCas else Pick)
    case ColdCas => if s.running == 0 then WithPc(s, id, ColdGet).(running := 1) else WithPc(s, id, Pick)
    case ColdGet => WithPc(s, id, ColdStart(|s.owner|)).(owner := s.owner + [ColdStarter(id)], lastActive := s.lastActive + [0])
    case ColdStart(obj) => Launch(c, WithPc(s, id, Pick), obj)
    case _ => s
  }

  /** PushAndForward on the buffer and the nonblocking send of its head. */
  function BufferStep(c: Config, s: State, id: Id): State
    requires SubEnabled(c, s, id)
  {
    match s.jobs[id].pc
    case Push =>
      (match PushOutcome(|s.buffer|, s.OverflowClosed())
       case BufferClosed => WithPc(s, id, DropPending)
       case BufferFull => WithPc(s, id, FullPick)
       case BufferAccepted =>
         WithJob(s, id, FwdPick, InBuffer).(buffer := s.buffer + [id], bufOwner := Some(id)))
    case FwdPick => WithPc(NextSeq(s), id, FwdSend(ShardOf(NextCursor(s.sendSeq), c.shards)))
    case FwdSend(k) =>
      if HasRoom(c, s, k) then
        var t := WithPc(s, id, FwdPop);
        Send(WithJob(t, s.buffer[0], t.jobs[s.buffer[0]].pc, InShard(k)), k, s.buffer[0])
      else WithPc(s, id, Announce).(bufOwner := None)
    case FwdPop => WithPc(s, id, Announce).(buffer := s.buffer[1..], bufOwner := None)
    case _ => s
  }

  function SubStep(c: Config, s: State, id: Id): State
    requires SubEnabled(c, s, id)
  {
    match s.jobs[id].pc
    case Enter => WithJob(s, id, AddWg, CountedOnce).(pending := s.pending + 1)
    case AddWg => WithJob(s, id, CheckClosed, WithSubmitter).(wg := s.wg + 1)
    case CheckClosed => WithPc(s, id, if s.Closed() then DropPending else ColdLoad)
    case ColdLoad | ColdCas | ColdGet | ColdStart(_) => ColdStep(c, s, id)
    case Pick => WithPc(NextSeq(s), id, Offer(ShardOf(NextCursor(s.sendSeq), c.shards)))
    case Offer(k) =>
      if HasRoom(c, s, k) then Send(WithJob(s, id, Announce, InShard(k)), k, id)
      else WithPc(s, id, if c.nonblock then DropPending else Push)
    case Push | FwdPick | FwdSend(_) | FwdPop => BufferStep(c, s, id)
    case FullPick => WithPc(NextSeq(s), id, FullWait(ShardOf(NextCursor(s.sendSeq), c.shards)))
    case FullWait(k) => Send(WithJob(s, id, Announce, InShard(k)), k, id)
    case Announce => s.(jobs := s.jobs[id := s.jobs[id].(pc := Returned(true), enqueued := s.jobs[id].enqueued + 1)])
    case DropPending => WithJob(s, id, DropWg, Dropping).(pending := s.pending - 1)
    case DropWg => WithJob(s, id, Returned(false), Rejected).(wg := s.wg - 1)
    case Returned(_) => s
  }

  // ---- worker.run, nextShardTask, runTask (worker.go:28-138) ----

  function WithGor(s: State, g: Gid, pc: WorkerPc): State
    requires g < |s.gors|
  {
    s.(gors := s.gors[g := s.gors[g].(pc := pc)])
  }

  function Probe(c: Config, s: State, g: Gid): nat
    requires c.shards >= 1 && g < |s.gors| && s.gors[g].pc.Scan?
  {
    ProbeShard(s.gors[g].cursor, s.gors[g].pc.i, c.shards)
  }

  predicate WorkEnabled(c: Config, s: State, g: Gid) {
    c.shards >= 1 && g < |s.gors| && s.gors[g].obj < |s.lastActive| == |s.owner| &&
    match s.gors[g].pc
    case Scan(i) =>
      i < c.shards ==>
        Probe(c, s, g) < |s.shards| && (s.shards[Probe(c, s, g)] != [] ==> s.shards[Probe(c, s, g)][0] < |s.jobs|)
    case Batch => s.bufOwner.None?
    case Run(batch, _) => batch != [] && batch[0] < |s.jobs|
    case Exited => false
    case _ => true
  }

  function ScanStep(c: Config, s: State, g: Gid): State
    requires WorkEnabled(c, s, g) && s.gors[g].pc.Scan?
  {
    var i := s.gors[g].pc.i;
    if i >= c.shards then WithGor(s, g, Batch)
    else
      var k := Probe(c, s, g);
      if s.shards[k] == [] then WithGor(s, g, Scan(i + 1))
      else
        var id := s.shards[k][0];
        var t := s.(shards := s.shards[k := s.shards[k][1..]]);
        if s.jobs[id].body.NilInterface? then WithGor(t, g, Scan(i + 1))
        else t.(jobs := s.jobs[id := s.jobs[id].(stage := Held(g))],
                gors := s.gors[g := s.gors[g].(cursor := k, pc := Run([id], Touching))])
  }

  function HoldAll(jobs: seq<Job>, taken: seq<Id>, g: Gid): seq<Job> {
    seq(|jobs|, id requires 0 <= id < |jobs| => if id in taken then jobs[id].(stage := Held(g)) else jobs[id])
  }

  function BatchStep(s: State, g: Gid): State
    requires g < |s.gors|
  {
    var taken := TakeBatch(s.buffer, BATCH_SIZE);
    if taken == [] then WithGor(s, g, ParkDec)
    else WithGor(s, g, Run(taken, Touching)).(
           buffer := LeaveBatch(s.buffer, BATCH_SIZE), jobs := HoldAll(s.jobs, taken, g))
  }

  /** The next task of the batch, or the next scan. */
  function NextTask(batch: seq<Id>): WorkerPc {
    if |batch| > 1 then Run(batch[1..], Touching) else Scan(0)
  }

  /** Advance the executing task batch[0] from one phase of runTask to the next. */
  function RunStep(s: State, g: Gid, now: int, panics: bool): State
    requires g < |s.gors| && s.gors[g].pc.Run? && s.gors[g].obj < |s.lastActive|
    requires s.gors[g].pc.batch != [] && s.gors[g].pc.batch[0] < |s.jobs|
  {
    var Run(batch, phase) := s.gors[g].pc;
    var id := batch[0];
    var j := s.jobs[id];
    match phase
    case Touching =>
      WithGor(s, g, Run(batch, Starting)).(jobs := s.jobs[id := j.(stage := Exec(g, Starting))],
        lastActive := s.lastActive[s.gors[g].obj := now])
    case Starting =>
      WithGor(s, g, Run(batch, Running)).(jobs := s.jobs[id := j.(stage := Exec(g, Running), log := j.log + [Started])])
    case Running =>
      WithGor(s, g, Run(batch, Completing)).(jobs := s.jobs[id := j.(stage := Exec(g, Completing), log := j.log + [Ran(panics)])])
    case Completing =>
      WithGor(s, g, Run(batch, Settling)).(jobs := s.jobs[id := j.(stage := Exec(g, Settling), log := j.log + [Completed])])
    case Settling =>
      WithGor(s, g, Run(batch, Releasing)).(jobs := s.jobs[id := j.(stage := Settled(g))], pending := s.pending - 1)
    case Releasing =>
      WithGor(s, g, NextTask(batch)).(
        jobs := s.jobs[id := j.(stage := Finished)], wg := s.wg - 1, finished := s.finished + [id])
  }

  function WorkStep(c: Config, s: State, g: Gid, now: int, panics: bool): State
    requires WorkEnabled(c, s, g)
  {
    match s.gors[g].pc
    case Begin => WithGor(s, g, Scan(0)).(lastActive := s.lastActive[s.gors[g].obj := now])
    case Scan(_) => ScanStep(c, s, g)
    case Batch => BatchStep(s, g)
    case Run(_, _) => RunStep(s, g, now, panics)
    case ParkDec => WithGor(s, g, ParkIdle).(running := s.running - 1)
    case ParkIdle => WithGor(s, g, Exited).(idle := s.idle + [s.gors[g].obj], owner := s.owner[s.gors[g].obj := Parked])
    case Exited => s
  }

  // ---- Close (pool.go:708-720), scaler (pool.go:551-698), cleaner (pool.go:498-513) ----

  predicate CloseEnabled(s: State) {
    s.closer != ChannelShut && (s.closer == Flagged ==> s.bufOwner.None?)
  }

  function CloseApply(s: State): State {
    match s.closer
    case Open => s.(closer := Flagged)
    case Flagged => s.(closer := BufferShut)
    case BufferShut => s.(closer := ChannelShut)
    case ChannelShut => s
  }

  predicate ScalerEnabled(c: Config, s: State) {
    c.shards >= 1 &&
    match s.scaler
    case SawRunning(_) => s.bufOwner.None?
    case SawBacklog(_, _, _) => false
    case Spawn(left) => left == 0
    case Start(left, obj) => left > 0 && obj < |s.owner|
    case Stopped => false
    case _ => true
  }

  function ScalerApply(c: Config, s: State): State
    requires ScalerEnabled(c, s)
  {
    match s.scaler
    case Asleep => s.(scaler := SawRunning(s.running))
    case SawRunning(r) => s.(scaler := SawDepth(r, |s.buffer|))
    case SawDepth(r, d) => s.(scaler := SawBacklog(r, d, s.pending))
    case SawBacklog(_, _, _) => s
    case Recheck(demand) =>
      var actual := Grant(c.knobs, demand, s.running);
      s.(scaler := if actual <= 0 then ReadClosed else Add(s.running, actual))
    case Add(_, actual) => s.(running := s.running + actual, scaler := Spawn(Max(0, actual)))
    case Spawn(_) => s.(scaler := ReadClosed)
    case Start(left, obj) => Launch(c, s, obj).(scaler := Spawn(left - 1))
    case ReadClosed => s.(scaler := if s.Closed() then ReadPending else Asleep)
    case ReadPending => s.(scaler := if s.pending == 0 then Stopped else Asleep)
    case Stopped => s
  }

  predicate DecideEnabled(c: Config, s: State, a: Action) {
    c.knobs.Valid() && s.scaler.SawBacklog? && a.Decide? && a.submitMed >= 0.0 && a.consumeMed >= 0.0 && a.exitMed >= 0.0
  }

  function DecideApply(c: Config, s: State, a: Action): State
    requires DecideEnabled(c, s, a)
  {
    var SawBacklog(r, d, b) := s.scaler;
    var demand := Demand(c.knobs, Readings(a.submitMed, a.consumeMed, a.exitMed, r, d, b, a.queued, a.eligible));
    s.(scaler := if demand <= 0 then ReadClosed else Recheck(demand))
  }

  /** The idle container's Pop may return any member; when it is empty a fresh object is allocated. */
  predicate PopEnabled(s: State, i: nat) {
    s.scaler.Spawn? && s.scaler.left > 0 && (s.idle != [] ==> i < |s.idle| && s.idle[i] < |s.owner|)
  }

  function PopApply(s: State, i: nat): State
    requires PopEnabled(s, i)
  {
    var left := s.scaler.left;
    if s.idle == [] then
      s.(scaler := Start(left, |s.owner|), owner := s.owner + [Scaler], lastActive := s.lastActive + [0])
    else
      s.(scaler := Start(left, s.idle[i]), owner := s.owner[s.idle[i] := Scaler], idle := s.idle[..i] + s.idle[i + 1..])
  }

  function LiveIdle(idle: seq<Obj>, lastActive: seq<int>, cutoff: int): seq<Obj> {
    if idle == [] then []
    else
      var o := idle[|idle| - 1];
      LiveIdle(idle[..|idle| - 1], lastActive, cutoff)
      + (if o < |lastActive| && lastActive[o] > cutoff then [o] else [])
  }

  function CleanApply(s: State, cutoff: int): State {
    var live := LiveIdle(s.idle, s.lastActive, cutoff);
    s.(idle := live,
       owner := seq(|s.owner|, o requires 0 <= o < |s.owner| => if o in s.idle && o !in live then Collected else s.owner[o]))
  }

  predicate Enabled(c: Config, s: State, a: Action) {
    match a
    case Call(_) => true
    case Sub(id) => SubEnabled(c, s, id)
    case Cancel(id) => id < |s.jobs| && s.jobs[id].pc.FullWait?
    case Shut(id) => id < |s.jobs| && s.jobs[id].pc.FullWait? && s.closer == ChannelShut
    case Work(g, _, _) => WorkEnabled(c, s, g)
    case CloseStep => CloseEnabled(s)
    case ScalerStep => ScalerEnabled(c, s)
    case Decide(_, _, _, _, _) => DecideEnabled(c, s, a)
    case PopIdle(i) => PopEnabled(s, i)
    case Clean(_) => true
  }

  function Apply(c: Config, s: State, a: Action): State
    requires Enabled(c, s, a)
  {
    match a
    case Call(body) => if IsNilTask(body) then s else s.(jobs := s.jobs + [Job(body, Enter, Fresh, 0, [])])
    case Sub(id) => SubStep(c, s, id)
    case Cancel(id) => WithPc(s, id, DropPending)
    case Shut(id) => WithPc(s, id, DropPending)
    case Work(g, now, panics) => WorkStep(c, s, g, now, panics)
    case CloseStep => CloseApply(s)
    case ScalerStep => ScalerApply(c, s)
    case Decide(_, _, _, _, _) => DecideApply(c, s, a)
    case PopIdle(i) => PopApply(s, i)
    case Clean(cutoff) => CleanApply(s, cutoff)
  }

  // ---- runs ----

  /** The actions of the run are enabled one after the other. */
  predicate Fires(c: Config, s: State, run: seq<Action>)
    decreases |run|
  {
    run == [] || (Enabled(c, s, run[0]) && Fires(c, Apply(c, s, run[0]), run[1..]))
  }

  function After(c: Config, s: State, run: seq<Action>): State
    requires Fires(c, s, run)
    decreases |run|
  {
    if run == [] then s else After(c, Apply(c, s, run[0]), run[1..])
  }

  ghost predicate Reachable(c: Config, s: State) {
    exists run :: Fires(c, Init(c), run) && s == After(c, Init(c), run)
  }
}
