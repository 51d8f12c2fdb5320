/** Every action keeps the invariant, so it holds in every reachable state. */
module Steps {
  import opened Counting
  import opened Tasks
  import opened Protocol
  import opened Invariant
  import opened SubmitSteps
  import opened WorkerSteps

  lemma CallPlaces(c: Config, s: State, j: Job)
    requires Places(c, s) && JobOk(c, j) && j.pc.Enter?
    ensures Places(c, s.(jobs := s.jobs + [j]))
  {
    var jobs' := s.jobs + [j];
    ShardsFrame(c, s.jobs, jobs', s.shards);
    BufferFrame(s.jobs, jobs', s.buffer, s.bufOwner);
    GorsFrame(c, s.jobs, jobs', s.gors);
    FinishedFrame(s.jobs, jobs', s.finished);
  }

  lemma CallBooks(c: Config, s: State, j: Job)
    requires Books(c, s) && j.pc.Enter? && j.stage.Fresh?
    ensures Books(c, s.(jobs := s.jobs + [j]))
  {
    CountAppend(s.jobs, j, InPending);
    CountAppend(s.jobs, j, InWg);
    CountAppend(s.jobs, j, Reserving);
  }

  lemma CallStep(c: Config, s: State, body: Task)
    requires c.Valid() && Inv(c, s)
    ensures Inv(c, Apply(c, s, Call(body)))
  {
    if !IsNilTask(body) {
      var j := Job(body, Enter, Fresh, 0, []);
      CallPlaces(c, s, j);
      CallBooks(c, s, j);
    }
  }

  /** The scaler's program counter moves and neither workers nor counters change. */
  lemma ScalerMove(c: Config, s: State, pc: ScalerPc)
    requires c.Valid() && Inv(c, s) && ScalerOk(c, s.(scaler := pc)) && ShutdownOk(s.(scaler := pc))
    requires ScalerReserved(pc) == ScalerReserved(s.scaler) == 0 && !pc.Start?
    ensures Inv(c, s.(scaler := pc))
  {
  }

  /** Nothing is pending, so every submission is either settled or not yet counted. */
  lemma NothingPending(s: State)
    requires PendingOk(s) && s.pending == 0
    ensures forall id :: 0 <= id < |s.jobs| ==> !InPending(s.jobs[id])
  {
    CountPositive(s.jobs, InPending);
  }

  predicate MidTick(pc: ScalerPc) {
    pc.Asleep? || pc.SawRunning? || pc.SawDepth? || pc.Recheck?
  }

  lemma ReadMoves(c: Config, s: State)
    requires ScalerEnabled(c, s) && MidTick(s.scaler)
    ensures ScalerApply(c, s) == s.(scaler := ScalerApply(c, s).scaler)
  {
  }

  /** The readings of a tick and its locked re-check. */
  lemma ScalerReadStep(c: Config, s: State)
    requires c.Valid() && Inv(c, s) && ScalerEnabled(c, s) && MidTick(s.scaler)
    ensures Inv(c, ScalerApply(c, s))
  {
    ReadMoves(c, s);
    ScalerMove(c, s, ScalerApply(c, s).scaler);
  }

  /** The exit test: the closed flag first, the pending count after it. */
  lemma ScalerExitStep(c: Config, s: State)
    requires c.Valid() && Inv(c, s) && ScalerEnabled(c, s) && (s.scaler.ReadClosed? || s.scaler.ReadPending?)
    ensures Inv(c, ScalerApply(c, s))
  {
    if s.pending == 0 {
      NothingPending(s);
    }
    ScalerMove(c, s, ScalerApply(c, s).scaler);
  }

  lemma DecideMoves(c: Config, s: State, a: Action)
    requires DecideEnabled(c, s, a)
    ensures var t := DecideApply(c, s, a);
      t == s.(scaler := t.scaler) && (t.scaler.ReadClosed? || (t.scaler.Recheck? && t.scaler.demand > 0))
  {
  }

  lemma DecideStep(c: Config, s: State, a: Action)
    requires c.Valid() && Inv(c, s) && DecideEnabled(c, s, a)
    ensures Inv(c, DecideApply(c, s, a))
  {
    DecideMoves(c, s, a);
    ScalerMove(c, s, DecideApply(c, s, a).scaler);
  }

  lemma ScalerStartBooks(c: Config, s: State)
    requires c.Valid() && Books(c, s) && ScalerEnabled(c, s) && s.scaler.Start?
    ensures Books(c, ScalerApply(c, s))
  {
    var obj := s.scaler.obj;
    LaunchAlive(c, s, obj);
    LaunchOwners(c, s.(scaler := Spawn(s.scaler.left - 1)), obj);
  }

  lemma ScalerStartStep(c: Config, s: State)
    requires c.Valid() && Inv(c, s) && ScalerEnabled(c, s) && s.scaler.Start?
    ensures Inv(c, ScalerApply(c, s))
  {
    LaunchGors(c, s, s.scaler.obj);
    ScalerStartBooks(c, s);
  }

  lemma ScalerAddStep(c: Config, s: State)
    requires c.Valid() && Inv(c, s) && ScalerEnabled(c, s) && (s.scaler.Add? || s.scaler.Spawn?)
    ensures Inv(c, ScalerApply(c, s))
  {
  }

  lemma ScalerKeepsInv(c: Config, s: State)
    requires c.Valid() && Inv(c, s) && ScalerEnabled(c, s)
    ensures Inv(c, ScalerApply(c, s))
  {
    if s.scaler.Add? || s.scaler.Spawn? {
      ScalerAddStep(c, s);
    } else if s.scaler.Start? {
      ScalerStartStep(c, s);
    } else if MidTick(s.scaler) {
      ScalerReadStep(c, s);
    } else {
      ScalerExitStep(c, s);
    }
  }

  lemma PopOwners(s: State, i: nat)
    requires OwnersOk(s.jobs, s.gors, s.idle, s.owner, s.scaler) && PopEnabled(s, i)
    ensures var t := PopApply(s, i); OwnersOk(t.jobs, t.gors, t.idle, t.owner, t.scaler)
  {
    if s.idle != [] {
      var t := PopApply(s, i);
      forall m | 0 <= m < |t.idle|
        ensures t.idle[m] < |t.owner| && t.owner[t.idle[m]] == Parked
      {
        assert t.idle[m] == s.idle[if m < i then m else m + 1] != s.idle[i];
      }
    }
  }

  lemma PopStep(c: Config, s: State, i: nat)
    requires c.Valid() && Inv(c, s) && PopEnabled(s, i)
    ensures Inv(c, PopApply(s, i))
  {
    PopOwners(s, i);
  }

  lemma LiveIdleSub(idle: seq<Obj>, lastActive: seq<int>, cutoff: int)
    requires Distinct(idle)
    ensures Distinct(LiveIdle(idle, lastActive, cutoff))
    ensures forall o :: o in LiveIdle(idle, lastActive, cutoff) <==>
      o in idle && o < |lastActive| && lastActive[o] > cutoff
  {
    if idle != [] {
      var n := |idle| - 1;
      LiveIdleSub(idle[..n], lastActive, cutoff);
      assert idle == idle[..n] + [idle[n]];
      assert idle[n] !in idle[..n];
    }
  }

  lemma CleanStep(c: Config, s: State, cutoff: int)
    requires c.Valid() && Inv(c, s)
    ensures Inv(c, CleanApply(s, cutoff))
  {
    LiveIdleSub(s.idle, s.lastActive, cutoff);
    var t := CleanApply(s, cutoff);
    assert forall i :: 0 <= i < |t.idle| ==> t.idle[i] in t.idle;
    assert OwnersOk(t.jobs, t.gors, t.idle, t.owner, t.scaler);
  }

  lemma CloserMove(c: Config, s: State, pc: ClosePc)
    requires Inv(c, s) && !pc.Open?
    ensures Inv(c, s.(closer := pc))
  {
  }

  lemma CloseKeepsInv(c: Config, s: State)
    requires Inv(c, s)
    ensures Inv(c, CloseApply(s))
  {
    if !s.closer.ChannelShut? {
      CloserMove(c, s, CloseApply(s).closer);
    }
  }

  lemma SubmitterKeepsInv(c: Config, s: State, a: Action)
    requires c.Valid() && Inv(c, s) && Enabled(c, s, a) && (a.Call? || a.Sub? || a.Cancel? || a.Shut?)
    ensures Inv(c, Apply(c, s, a))
  {
    match a
    case Call(body) => CallStep(c, s, body);
    case Sub(id) => SubKeepsInv(c, s, id);
    case Cancel(id) => assert JobOk(c, s.jobs[id]); MissStep(c, s, id, DropPending, s.sendSeq);
    case Shut(id) => assert JobOk(c, s.jobs[id]); MissStep(c, s, id, DropPending, s.sendSeq);
  }

  lemma BackgroundKeepsInv(c: Config, s: State, a: Action)
    requires c.Valid() && Inv(c, s) && Enabled(c, s, a) && (a.CloseStep? || a.Decide? || a.PopIdle? || a.Clean?)
    ensures Inv(c, Apply(c, s, a))
  {
    match a
    case CloseStep => CloseKeepsInv(c, s);
    case Decide(_, _, _, _, _) => DecideStep(c, s, a);
    case PopIdle(i) => PopStep(c, s, i);
    case Clean(cutoff) => CleanStep(c, s, cutoff);
  }

  /** Every action of every agent keeps the invariant. */
  lemma StepKeepsInv(c: Config, s: State, a: Action)
    requires c.Valid() && Inv(c, s) && Enabled(c, s, a)
    ensures Inv(c, Apply(c, s, a))
  {
    if a.Work? {
      WorkKeepsInv(c, s, a.g, a.now, a.panics);
    } else if a.ScalerStep? {
      ScalerKeepsInv(c, s);
    } else if a.CloseStep? || a.Decide? || a.PopIdle? || a.Clean? {
      BackgroundKeepsInv(c, s, a);
    } else {
      SubmitterKeepsInv(c, s, a);
    }
  }

  /** The invariant holds after every run that starts where it holds. */
  lemma {:induction false} RunKeepsInv(c: Config, s: State, run: seq<Action>)
    requires c.Valid() && Inv(c, s) && Fires(c, s, run)
    ensures Inv(c, After(c, s, run))
    decreases |run|
  {
    if run != [] {
      StepKeepsInv(c, s, run[0]);
      RunKeepsInv(c, Apply(c, s, run[0]), run[1..]);
    }
  }

  lemma ReachableInv(c: Config, s: State)
    requires c.Valid() && Reachable(c, s)
    ensures Inv(c, s)
  {
    var run :| Fires(c, Init(c), run) && s == After(c, Init(c), run);
    InitInv(c);
    RunKeepsInv(c, Init(c), run);
  }

  lemma {:induction false} FiresThen(c: Config, s: State, run: seq<Action>, a: Action)
    requires Fires(c, s, run) && Enabled(c, After(c, s, run), a)
    ensures Fires(c, s, run + [a]) && After(c, s, run + [a]) == Apply(c, After(c, s, run), a)
    decreases |run|
  {
    if run == [] {
      assert run + [a] == [a] && [a][1..] == [];
    } else {
      FiresThen(c, Apply(c, s, run[0]), run[1..], a);
      assert (run + [a])[1..] == run[1..] + [a];
    }
  }

  lemma ReachStep(c: Config, s: State, a: Action)
    requires Reachable(c, s) && Enabled(c, s, a)
    ensures Reachable(c, Apply(c, s, a))
  {
    var run :| Fires(c, Init(c), run) && s == After(c, Init(c), run);
    FiresThen(c, Init(c), run, a);
  }
}
