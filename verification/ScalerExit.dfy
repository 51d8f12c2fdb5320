/** The scaler's exit: exactly when it happens, that it cannot be put off, and that every closed pool reaches it. */
module ScalerExit {
  import opened Shards
  import opened ScalingLaws
  import opened Protocol
  import opened Invariant
  import opened Steps
  import opened Safety
  import opened Drain
  import opened Rescue
  import opened Acceptance

  // ---- the step ----

  lemma OthersKeepScaler(c: Config, s: State, a: Action)
    requires Enabled(c, s, a) && !OfScaler(a)
    ensures Apply(c, s, a).scaler == s.scaler
  {
    if a.Sub? {
      SubKeepsScaler(c, s, a.id);
    } else if a.Work? {
      WorkKeepsScaler(c, s, a.g, a.now, a.panics);
    }
  }

  /**
   An action makes the scaler exit exactly when it is the second reading of the exit test and finds nothing
   pending; and that reading comes exactly after a first one that found the pool closed.
   */
  lemma StopsExactly(c: Config, s: State, a: Action)
    requires Enabled(c, s, a) && !s.scaler.Stopped?
    ensures Apply(c, s, a).scaler.Stopped? <==> a.ScalerStep? && s.scaler.ReadPending? && s.pending == 0
    ensures !s.scaler.ReadPending? ==>
      (Apply(c, s, a).scaler.ReadPending? <==> a.ScalerStep? && s.scaler.ReadClosed? && s.closer != Open)
  {
    if !OfScaler(a) {
      OthersKeepScaler(c, s, a);
    }
  }

  // ---- in a closed pool with nothing pending every way leads to the exit ----

  /** An upper bound on the scaler's remaining actions, whatever its decisions read. */
  function ExitDelay(capacity: nat, pc: ScalerPc): nat {
    match pc
    case Stopped => 0
    case ReadPending => 1
    case ReadClosed => 2
    case Spawn(left) => 3 + 2 * left
    case Start(left, _) => 2 + 2 * left
    case Add(_, _) => 4 + 2 * capacity
    case Recheck(_) => 5 + 2 * capacity
    case SawBacklog(_, _, _) => 6 + 2 * capacity
    case SawDepth(_, _) => 7 + 2 * capacity
    case SawRunning(_) => 8 + 2 * capacity
    case Asleep => 9 + 2 * capacity
  }

  lemma ExitDelayFalls(c: Config, s: State, a: Action)
    requires c.Valid() && ScalerOk(c, s) && Enabled(c, s, a) && OfScaler(a) && s.Closed() && s.pending == 0 && s.running >= 0
    ensures var t := Apply(c, s, a);
      ExitDelay(c.knobs.capacity, t.scaler) < ExitDelay(c.knobs.capacity, s.scaler) && t.Closed() && t.pending == 0 && t.jobs == s.jobs
  {
    if s.scaler.Recheck? {
      GrantExactly(c.knobs, s.scaler.demand, s.running, c.knobs.capacity + 1);
    }
  }

  /** Every run of scaler actions from a closed pool with nothing pending is short. */
  lemma {:induction false} ExitWithin(c: Config, s: State, run: seq<Action>)
    requires c.Valid() && Inv(c, s) && s.Closed() && s.pending == 0 && Fires(c, s, run) && AllOfScaler(run)
    ensures |run| <= ExitDelay(c.knobs.capacity, s.scaler)
    decreases |run|
  {
    if run != [] {
      ExitDelayFalls(c, s, run[0]);
      StepKeepsInv(c, s, run[0]);
      ExitWithin(c, Apply(c, s, run[0]), run[1..]);
    }
  }

  /** And it can always go on until the exit. */
  lemma ExitHasNext(c: Config, s: State) returns (a: Action)
    requires c.Valid() && Inv(c, s) && !s.scaler.Stopped? && s.bufOwner.None?
    ensures OfScaler(a) && Enabled(c, s, a)
  {
    ShardInRange(0, c.shards);
    match s.scaler
    case SawBacklog(_, _, _) => a := Decide(0.0, 0.0, 0.0, 0, false);
    case Spawn(left) => a := if left > 0 then PopIdle(0) else ScalerStep;
    case _ => a := ScalerStep;
  }

  lemma ScalerLeavesRest(c: Config, s: State, a: Action)
    requires Enabled(c, s, a) && OfScaler(a)
    ensures var t := Apply(c, s, a);
      t.jobs == s.jobs && t.bufOwner == s.bufOwner && t.pending == s.pending && t.wg == s.wg && t.finished == s.finished
  {
  }

  lemma {:induction false} ScalerStops(c: Config, s: State) returns (run: seq<Action>)
    requires c.Valid() && Inv(c, s) && s.Closed() && s.pending == 0 && s.bufOwner.None?
    ensures Fires(c, s, run) && AllOfScaler(run)
    ensures var t := After(c, s, run);
      t.scaler.Stopped? && t.jobs == s.jobs && t.pending == s.pending && t.wg == s.wg && t.finished == s.finished
    decreases ExitDelay(c.knobs.capacity, s.scaler)
  {
    if s.scaler.Stopped? {
      run := [];
    } else {
      var a := ExitHasNext(c, s);
      ExitDelayFalls(c, s, a);
      StepKeepsInv(c, s, a);
      ScalerLeavesRest(c, s, a);
      var rest := ScalerStops(c, Apply(c, s, a));
      FiresCons(c, s, a, rest);
      run := [a] + rest;
    }
  }

  // ---- every closed pool ----

  lemma {:induction false} StaysClosed(c: Config, s: State, run: seq<Action>)
    requires Fires(c, s, run) && s.Closed()
    ensures After(c, s, run).Closed()
    decreases |run|
  {
    if run != [] {
      if !run[0].CloseStep? {
        StaysOpen(c, s, run[0]);
      }
      StaysClosed(c, Apply(c, s, run[0]), run[1..]);
    }
  }

  lemma QuiescentUnlocked(c: Config, s: State)
    requires Inv(c, s) && Quiescent(s)
    ensures s.bufOwner.None?
  {
  }

  /** A run of internal actions from s to t. */
  ghost predicate Leads(c: Config, s: State, t: State) {
    exists run :: Fires(c, s, run) && AllInternal(run) && After(c, s, run) == t
  }

  /**
   Shutdown completes: from every reachable state of a closed pool, wherever submitters, workers and scaler
   stand, a finite run of their actions ends with everything finished or answered and the scaler gone.
   */
  lemma ClosedPoolStops(c: Config, s: State)
    requires c.Valid() && Reachable(c, s) && s.Closed()
    ensures exists t :: Leads(c, s, t) && Quiescent(t) && t.scaler.Stopped?
  {
    ReachableInv(c, s);
    var first := DrainsFrom(c, s);
    var u := After(c, s, first);
    RunKeepsInv(c, s, first);
    StaysClosed(c, s, first);
    QuiescentUnlocked(c, u);
    var second := ScalerStops(c, u);
    FiresConcat(c, s, first, second);
    var t := After(c, s, first + second);
    assert Leads(c, s, t) && Quiescent(t);
  }

  lemma {:induction false} ReachRun(c: Config, s: State, run: seq<Action>)
    requires Reachable(c, s) && Fires(c, s, run)
    ensures Reachable(c, After(c, s, run))
    decreases |run|
  {
    if run != [] {
      ReachStep(c, s, run[0]);
      ReachRun(c, Apply(c, s, run[0]), run[1..]);
    }
  }

  /** So for every configuration the scaler's exit is reachable. */
  lemma ExitReachable(c: Config)
    requires c.Valid()
    ensures exists t :: Reachable(c, t) && t.scaler.Stopped?
  {
    var s := Init(c);
    assert Fires(c, s, []) && After(c, s, []) == s;
    ReachStep(c, s, CloseStep);
    var u := Apply(c, s, CloseStep);
    ClosedPoolStops(c, u);
    var t :| Leads(c, u, t) && Quiescent(t) && t.scaler.Stopped?;
    var run :| Fires(c, u, run) && AllInternal(run) && After(c, u, run) == t;
    ReachRun(c, u, run);
  }
}
