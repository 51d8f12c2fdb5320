/** The date that a worker carries into the idle container, as a function of the run. */
module LastActive {
  import opened IdleSpec
  import opened Protocol
  import opened Invariant
  import opened Steps
  import opened Safety
  import opened IdleSteps

  /** The action is goroutine g's first, or begins one of the tasks it holds. */
  ghost predicate Begins(c: Config, s: State, a: Action, g: Gid) {
    a.Work? && a.g == g && Enabled(c, s, a) && (s.gors[g].pc.Begin? || exists id: Id :: BeginsTask(c, s, a, g, id))
  }

  ghost predicate BeginsTask(c: Config, s: State, a: Action, g: Gid, id: Id)
    requires Enabled(c, s, a)
  {
    id < |s.jobs| && id < |Apply(c, s, a).jobs| && s.jobs[id].stage == Held(g) && Apply(c, s, a).jobs[id].stage.Exec?
  }

  /** The clock at the last such action of the run, or otherwise the given date. */
  ghost function LastBegin(c: Config, s: State, run: seq<Action>, g: Gid, date: int): int
    requires Fires(c, s, run)
    decreases |run|
  {
    if run == [] then date
    else LastBegin(c, Apply(c, s, run[0]), run[1..], g, if Begins(c, s, run[0], g) then run[0].now else date)
  }

  /** A goroutine that has made its first step and has not handed its worker object over. */
  predicate OnDuty(s: State, g: Gid) {
    g < |s.gors| && !s.gors[g].pc.Begin? && !s.gors[g].pc.Exited?
  }

  /** The worker object of g, if g is on duty, bears the date. */
  predicate Bears(s: State, g: Gid, date: int) {
    OnDuty(s, g) ==> s.gors[g].obj < |s.lastActive| && s.lastActive[s.gors[g].obj] == date
  }

  // ---- one step ----

  /** g's own steps: those that begin something write the clock, the others leave the date. */
  lemma OwnStep(c: Config, s: State, g: Gid, now: int, panics: bool)
    requires WorkEnabled(c, s, g)
    ensures var t := WorkStep(c, s, g, now, panics);
      |t.gors| == |s.gors| && t.gors[g].obj == s.gors[g].obj && |t.lastActive| == |s.lastActive|
      && t.lastActive[s.gors[g].obj]
         == if s.gors[g].pc.Begin? || (s.gors[g].pc.Run? && s.gors[g].pc.phase == Touching) then now else s.lastActive[s.gors[g].obj]
  {
  }

  /** The begin of a task is the step out of Touching. */
  lemma BeginIsTouch(c: Config, s: State, g: Gid, now: int, panics: bool)
    requires Inv(c, s) && WorkEnabled(c, s, g)
    ensures Begins(c, s, Work(g, now, panics), g)
      <==> s.gors[g].pc.Begin? || (s.gors[g].pc.Run? && s.gors[g].pc.phase == Touching)
  {
    var a := Work(g, now, panics);
    if s.gors[g].pc.Run? && s.gors[g].pc.phase == Touching {
      assert GorOk(c, s.jobs, s.gors[g], g);
      var id := s.gors[g].pc.batch[0];
      assert s.jobs[id].stage == ExpectedStage(g, Touching, 0);
      assert BeginsTask(c, s, a, g, id);
    }
    if id: Id :| BeginsTask(c, s, a, g, id) {
      OnlyTouchExecutes(c, s, g, now, panics, id);
    }
  }

  lemma OnlyTouchExecutes(c: Config, s: State, g: Gid, now: int, panics: bool, id: Id)
    requires Inv(c, s) && WorkEnabled(c, s, g) && BeginsTask(c, s, Work(g, now, panics), g, id)
    ensures s.gors[g].pc.Run? && s.gors[g].pc.phase == Touching
  {
    assert GorOk(c, s.jobs, s.gors[g], g);
    if s.gors[g].pc.Run? {
      assert s.jobs[s.gors[g].pc.batch[0]].stage == ExpectedStage(g, s.gors[g].pc.phase, 0);
    }
  }

  /** Any other action leaves g where it was, or starts it. */
  lemma OthersStep(c: Config, s: State, a: Action, g: Gid)
    requires Enabled(c, s, a) && !(a.Work? && a.g == g)
    ensures var t := Apply(c, s, a);
      g < |s.gors| ==> g < |t.gors| && t.gors[g] == s.gors[g]
    ensures var t := Apply(c, s, a);
      |s.gors| <= g < |t.gors| ==> t.gors[g].pc.Begin?
  {
    if a.Sub? {
      SubGors(c, s, a.id, g);
    } else if a.Work? {
      WorkGors(c, s, a.g, a.now, a.panics, g);
    }
  }

  lemma SubGors(c: Config, s: State, id: Id, g: Gid)
    requires SubEnabled(c, s, id)
    ensures var t := SubStep(c, s, id);
      (g < |s.gors| ==> g < |t.gors| && t.gors[g] == s.gors[g]) && (|s.gors| <= g < |t.gors| ==> t.gors[g].pc.Begin?)
  {
  }

  lemma WorkGors(c: Config, s: State, h: Gid, now: int, panics: bool, g: Gid)
    requires WorkEnabled(c, s, h) && g != h
    ensures var t := WorkStep(c, s, h, now, panics);
      |t.gors| == |s.gors| && (g < |s.gors| ==> t.gors[g] == s.gors[g])
  {
  }

  lemma StepBears(c: Config, s: State, a: Action, g: Gid, date: int)
    requires Inv(c, s) && Enabled(c, s, a) && Bears(s, g, date)
    ensures Bears(Apply(c, s, a), g, if Begins(c, s, a, g) then a.now else date)
  {
    var t := Apply(c, s, a);
    if a.Work? && a.g == g {
      OwnStep(c, s, g, a.now, a.panics);
      BeginIsTouch(c, s, g, a.now, a.panics);
    } else {
      OthersStep(c, s, a, g);
      if OnDuty(t, g) {
        OthersObject(c, s, a, g);
        TimestampKept(c, s, a, s.gors[g].obj);
      }
    }
  }

  /** Two goroutines on duty never share a worker object. */
  lemma OthersObject(c: Config, s: State, a: Action, g: Gid)
    requires Inv(c, s) && Enabled(c, s, a) && !(a.Work? && a.g == g) && OnDuty(s, g)
    ensures s.gors[g].obj < |s.lastActive| && (a.Work? ==> s.gors[a.g].obj != s.gors[g].obj)
  {
    assert s.owner[s.gors[g].obj] == Worker(g);
  }

  // ---- runs ----

  lemma {:induction false} RunBears(c: Config, s: State, run: seq<Action>, g: Gid, date: int)
    requires c.Valid() && Inv(c, s) && Fires(c, s, run) && Bears(s, g, date)
    ensures Bears(After(c, s, run), g, LastBegin(c, s, run, g, date))
    decreases |run|
  {
    if run != [] {
      StepBears(c, s, run[0], g, date);
      StepKeepsInv(c, s, run[0]);
      RunBears(c, Apply(c, s, run[0]), run[1..], g, if Begins(c, s, run[0], g) then run[0].now else date);
    }
  }

  /**
   At every moment of every run a worker on duty bears the time at which it began its last task, or its
   first step when it has begun none.
   */
  lemma WorkerBearsLastBegin(c: Config, run: seq<Action>, g: Gid)
    requires c.Valid() && Fires(c, Init(c), run) && OnDuty(After(c, Init(c), run), g)
    ensures var s := After(c, Init(c), run);
      s.gors[g].obj < |s.lastActive| && s.lastActive[s.gors[g].obj] == LastBegin(c, Init(c), run, g, 0)
  {
    InitInv(c);
    RunBears(c, Init(c), run, g, 0);
  }

  /** And with that time it enters the idle container when it parks. */
  lemma ParksWithLastBegin(c: Config, run: seq<Action>, g: Gid, now: int, panics: bool)
    requires c.Valid() && Fires(c, Init(c), run) && Enabled(c, After(c, Init(c), run), Work(g, now, panics))
    requires After(c, Init(c), run).gors[g].pc.ParkIdle?
    ensures var s := After(c, Init(c), run); var t := Apply(c, s, Work(g, now, panics));
      Known(s.idle, s.lastActive) && Known(t.idle, t.lastActive)
      && Dated(t.idle, t.lastActive) == Dated(s.idle, s.lastActive) + [Elem(s.gors[g].obj, LastBegin(c, Init(c), run, g, 0))]
  {
    var s := After(c, Init(c), run);
    assert Reachable(c, s);
    ParkIsAdd(c, s, g, now, panics);
    WorkerBearsLastBegin(c, run, g);
  }
}
