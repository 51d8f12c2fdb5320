/** When a submission is taken and when it is turned away. */
module Acceptance {
  import opened Tasks
  import opened Protocol
  import opened Invariant
  import opened Steps
  import opened Safety

  /** A call becomes a submission unless what it carries is nil at its innermost. */
  lemma EntryExactly(c: Config, s: State, body: Task)
    ensures Enabled(c, s, Call(body))
    ensures var t := Apply(c, s, Call(body));
      if Innermost(body) in {NilInterface, Func(true), Retry(true), NilContext} then t == s
      else t == s.(jobs := t.jobs) && t.jobs == s.jobs + [Job(body, Enter, Fresh, 0, [])]
  {
    NilExactly(body);
  }

  // ---- one step ----

  /** The four ways to be turned away. */
  predicate TurnsAway(c: Config, s: State, a: Action, id: Id)
    requires id < |s.jobs|
  {
    var pc := s.jobs[id].pc;
    (a == Sub(id) && pc.CheckClosed? && s.closer != Open)                                                  // the closed flag is up
    || (a == Sub(id) && pc.Offer? && c.nonblock && pc.k < |s.shards| && |s.shards[pc.k]| >= c.shardCap)     // NONBLOCK and no room
    || (a == Sub(id) && pc.Push? && (s.closer == BufferShut || s.closer == ChannelShut))                   // the buffer is shut
    || ((a == Cancel(id) || a == Shut(id)) && pc.FullWait?)                                                // given up while waiting
  }

  predicate OnItsWayOut(pc: SubPc) {
    pc.DropPending? || pc.DropWg? || pc == Returned(false)
  }

  /** A submission starts on its way out exactly by one of those four steps. */
  lemma RejectedExactly(c: Config, s: State, a: Action, id: Id)
    requires Enabled(c, s, a) && id < |s.jobs| && !OnItsWayOut(s.jobs[id].pc)
    ensures id < |Apply(c, s, a).jobs|
    ensures OnItsWayOut(Apply(c, s, a).jobs[id].pc) <==> TurnsAway(c, s, a, id)
  {
    if !Concerns(a, id) {
      OwnStepsOnly(c, s, a, id);
    } else if a.Sub? {
      SubTurnsAway(c, s, id);
    }
  }

  lemma SubTurnsAway(c: Config, s: State, id: Id)
    requires SubEnabled(c, s, id) && !OnItsWayOut(s.jobs[id].pc)
    ensures |SubStep(c, s, id).jobs| == |s.jobs|
    ensures OnItsWayOut(SubStep(c, s, id).jobs[id].pc) <==> TurnsAway(c, s, Sub(id), id)
  {
  }

  /** The ways to be taken: a shard with room, at once or after waiting, or the open overflow buffer below its limit. */
  predicate TakesIn(c: Config, s: State, a: Action, id: Id)
    requires id < |s.jobs|
  {
    var pc := s.jobs[id].pc;
    a == Sub(id)
    && ((pc.Offer? && pc.k < |s.shards| && |s.shards[pc.k]| < c.shardCap)
        || pc.FullWait?
        || (pc.Push? && (s.closer == Open || s.closer == Flagged) && |s.buffer| < 100_000))
  }

  /** A submission becomes an accepted one exactly by one of those steps, and stands at the end of the queue it chose. */
  lemma AcceptedExactly(c: Config, s: State, a: Action, id: Id)
    requires Enabled(c, s, a) && id < |s.jobs| && !AcceptedPc(s.jobs[id].pc)
    ensures id < |Apply(c, s, a).jobs|
    ensures AcceptedPc(Apply(c, s, a).jobs[id].pc) <==> TakesIn(c, s, a, id)
    ensures TakesIn(c, s, a, id) ==>
      var pc, t := s.jobs[id].pc, Apply(c, s, a);
      if pc.Push? then t.buffer == s.buffer + [id] && t.shards == s.shards
      else pc.k < |s.shards| && t.shards == s.shards[pc.k := s.shards[pc.k] + [id]] && t.buffer == s.buffer
  {
    if !Concerns(a, id) {
      OwnStepsOnly(c, s, a, id);
    } else if a.Sub? {
      SubTakesIn(c, s, id);
    }
  }

  lemma SubTakesIn(c: Config, s: State, id: Id)
    requires SubEnabled(c, s, id) && !AcceptedPc(s.jobs[id].pc)
    ensures |SubStep(c, s, id).jobs| == |s.jobs|
    ensures AcceptedPc(SubStep(c, s, id).jobs[id].pc) <==> TakesIn(c, s, Sub(id), id)
    ensures TakesIn(c, s, Sub(id), id) ==>
      var pc, t := s.jobs[id].pc, SubStep(c, s, id);
      if pc.Push? then t.buffer == s.buffer + [id] && t.shards == s.shards
      else pc.k < |s.shards| && t.shards == s.shards[pc.k := s.shards[pc.k] + [id]] && t.buffer == s.buffer
  {
  }

  /**
   The way through the queues: a BLOCK-mode submission turns to the overflow buffer exactly when its shard has no
   room, to a blocking wait exactly when the open buffer is at its limit, and a forward is tried exactly after a push.
   */
  lemma RouteExactly(c: Config, s: State, a: Action, id: Id)
    requires Enabled(c, s, a) && id < |s.jobs|
    ensures var pc, t := s.jobs[id].pc, Apply(c, s, a);
      id < |t.jobs|
      && (!pc.Push? ==>
            (t.jobs[id].pc.Push? <==> a == Sub(id) && pc.Offer? && !c.nonblock && pc.k < |s.shards| && |s.shards[pc.k]| >= c.shardCap))
      && (!pc.FullPick? ==>
            (t.jobs[id].pc.FullPick? <==> a == Sub(id) && pc.Push? && (s.closer == Open || s.closer == Flagged) && |s.buffer| >= 100_000))
      && (!pc.FwdPick? ==>
            (t.jobs[id].pc.FwdPick? <==> a == Sub(id) && pc.Push? && (s.closer == Open || s.closer == Flagged) && |s.buffer| < 100_000))
  {
    if !Concerns(a, id) {
      OwnStepsOnly(c, s, a, id);
    } else if a.Sub? {
      SubRoute(c, s, id);
    }
  }

  lemma SubRoute(c: Config, s: State, id: Id)
    requires SubEnabled(c, s, id)
    ensures var pc, t := s.jobs[id].pc, SubStep(c, s, id);
      |t.jobs| == |s.jobs|
      && (!pc.Push? ==>
            (t.jobs[id].pc.Push? <==> pc.Offer? && !c.nonblock && pc.k < |s.shards| && |s.shards[pc.k]| >= c.shardCap))
      && (!pc.FullPick? ==>
            (t.jobs[id].pc.FullPick? <==> pc.Push? && (s.closer == Open || s.closer == Flagged) && |s.buffer| >= 100_000))
      && (!pc.FwdPick? ==>
            (t.jobs[id].pc.FwdPick? <==> pc.Push? && (s.closer == Open || s.closer == Flagged) && |s.buffer| < 100_000))
  {
  }

  /**
   The cold start: a submission wins a worker slot exactly when its compare-and-swap finds no running worker, and
   goes on without one exactly when a read of the count, before or at the swap, finds a running worker.
   */
  lemma ColdStartExactly(c: Config, s: State, a: Action, id: Id)
    requires Enabled(c, s, a) && id < |s.jobs|
    ensures var pc, t := s.jobs[id].pc, Apply(c, s, a);
      id < |t.jobs|
      && (!pc.ColdGet? ==> (t.jobs[id].pc.ColdGet? <==> a == Sub(id) && pc.ColdCas? && s.running == 0))
      && (a == Sub(id) && pc.ColdCas? && s.running == 0 ==> t.running == 1)
      && (!pc.Pick? ==>
            (t.jobs[id].pc.Pick? <==> a == Sub(id) && (((pc.ColdLoad? || pc.ColdCas?) && s.running != 0) || pc.ColdStart?)))
      && (a == Sub(id) && pc.ColdStart? ==> |t.gors| == |s.gors| + 1 && t.gors[|s.gors|].pc.Begin? && t.gors[|s.gors|].obj == pc.obj)
  {
    if !Concerns(a, id) {
      OwnStepsOnly(c, s, a, id);
    } else if a.Sub? {
      SubColdStart(c, s, id);
    }
  }

  lemma SubColdStart(c: Config, s: State, id: Id)
    requires SubEnabled(c, s, id)
    ensures var pc, t := s.jobs[id].pc, SubStep(c, s, id);
      |t.jobs| == |s.jobs|
      && (!pc.ColdGet? ==> (t.jobs[id].pc.ColdGet? <==> pc.ColdCas? && s.running == 0))
      && (pc.ColdCas? && s.running == 0 ==> t.running == 1)
      && (!pc.Pick? ==> (t.jobs[id].pc.Pick? <==> ((pc.ColdLoad? || pc.ColdCas?) && s.running != 0) || pc.ColdStart?))
      && (pc.ColdStart? ==> |t.gors| == |s.gors| + 1 && t.gors[|s.gors|].pc.Begin? && t.gors[|s.gors|].obj == pc.obj)
  {
  }

  /** A waiting submission can leave: always by its context, and by the pool's close once that is complete. */
  lemma WaitingCanLeave(c: Config, s: State, id: Id)
    requires id < |s.jobs| && s.jobs[id].pc.FullWait?
    ensures Enabled(c, s, Cancel(id)) && (Enabled(c, s, Shut(id)) <==> s.closer == ChannelShut)
  {
  }

  // ---- whole runs ----

  predicate Leaves(a: Action, id: Id) {
    a.CloseStep? || a == Cancel(id)
  }

  lemma StaysOpen(c: Config, s: State, a: Action)
    requires Enabled(c, s, a) && !a.CloseStep?
    ensures Apply(c, s, a).closer == s.closer
  {
    if a.Sub? {
      SubKeepsCloser(c, s, a.id);
    } else if a.Work? {
      WorkKeepsCloser(c, s, a.g, a.now, a.panics);
    }
  }

  lemma SubKeepsCloser(c: Config, s: State, id: Id)
    requires SubEnabled(c, s, id)
    ensures SubStep(c, s, id).closer == s.closer
  {
  }

  lemma WorkKeepsCloser(c: Config, s: State, g: Gid, now: int, panics: bool)
    requires WorkEnabled(c, s, g)
    ensures WorkStep(c, s, g, now, panics).closer == s.closer
  {
  }

  /** How far the close has come: the flag, then the overflow buffer, then the close channel. */
  function Shutting(pc: ClosePc): nat {
    match pc
    case Open => 0
    case Flagged => 1
    case BufferShut => 2
    case ChannelShut => 3
  }

  /** Only the close's own steps move it on, one stage at a time, and the buffer is shut only while nobody holds taskMu. */
  lemma CloseExactly(c: Config, s: State, a: Action)
    requires Enabled(c, s, a)
    ensures Shutting(Apply(c, s, a).closer) == Shutting(s.closer) + if a.CloseStep? then 1 else 0
    ensures Apply(c, s, a).closer == BufferShut && s.closer == Flagged ==> s.bufOwner.None?
  {
    if !a.CloseStep? {
      StaysOpen(c, s, a);
    }
  }

  /** A new submission starts at Enter. */
  lemma NewAtEnter(c: Config, s: State, a: Action, id: Id)
    requires Enabled(c, s, a) && |s.jobs| <= id < |Apply(c, s, a).jobs|
    ensures Apply(c, s, a).jobs[id].pc.Enter?
  {
    if !a.Call? {
      SameJobCount(c, s, a);
    }
  }

  /**
   In BLOCK mode an open pool turns nobody away: in every run without a close from a reachable open state, a
   submission that is not already on its way out and whose context is not cancelled never gets on its way out.
   */
  lemma {:induction false} BlockModeAccepts(c: Config, s: State, run: seq<Action>, id: Id)
    requires c.Valid() && Reachable(c, s) && !c.nonblock && s.closer == Open && Fires(c, s, run)
    requires forall i :: 0 <= i < |run| ==> !Leaves(run[i], id)
    requires id < |s.jobs| ==> !OnItsWayOut(s.jobs[id].pc)
    ensures id < |After(c, s, run).jobs| ==> !OnItsWayOut(After(c, s, run).jobs[id].pc)
    decreases |run|
  {
    if run != [] {
      var a := run[0];
      var t := Apply(c, s, a);
      assert !Leaves(a, id);
      StaysOpen(c, s, a);
      ReachStep(c, s, a);
      if id < |s.jobs| {
        RejectedExactly(c, s, a, id);
      } else if id < |t.jobs| {
        NewAtEnter(c, s, a, id);
      }
      BlockModeAccepts(c, t, run[1..], id);
    }
  }

  /** In particular, from the new pool. */
  lemma BlockModeNeverRejects(c: Config, run: seq<Action>, id: Id)
    requires c.Valid() && !c.nonblock && Fires(c, Init(c), run)
    requires forall i :: 0 <= i < |run| ==> !Leaves(run[i], id)
    ensures id < |After(c, Init(c), run).jobs| ==> After(c, Init(c), run).jobs[id].pc != Returned(false)
  {
    assert Fires(c, Init(c), []) && After(c, Init(c), []) == Init(c);
    BlockModeAccepts(c, Init(c), run, id);
  }

  predicate UsesBuffer(pc: SubPc) {
    pc.Push? || IsForwarding(pc) || pc.FullPick? || pc.FullWait?
  }

  predicate NoOverflow(s: State) {
    s.buffer == [] && forall id :: 0 <= id < |s.jobs| ==> !UsesBuffer(s.jobs[id].pc)
  }

  lemma SubNoOverflow(c: Config, s: State, id: Id)
    requires c.nonblock && SubEnabled(c, s, id) && NoOverflow(s)
    ensures NoOverflow(SubStep(c, s, id))
  {
  }

  lemma WorkNoOverflow(c: Config, s: State, g: Gid, now: int, panics: bool)
    requires WorkEnabled(c, s, g) && NoOverflow(s)
    ensures NoOverflow(WorkStep(c, s, g, now, panics))
  {
    forall x | 0 <= x < |s.jobs|
      ensures |WorkStep(c, s, g, now, panics).jobs| == |s.jobs| && WorkStep(c, s, g, now, panics).jobs[x].pc == s.jobs[x].pc
    {
      WorkOthers(c, s, g, now, panics, x);
    }
    WorkJobCount(c, s, g, now, panics);
    WorkKeepsEmptyBuffer(c, s, g, now, panics);
  }

  lemma WorkKeepsEmptyBuffer(c: Config, s: State, g: Gid, now: int, panics: bool)
    requires WorkEnabled(c, s, g) && s.buffer == []
    ensures WorkStep(c, s, g, now, panics).buffer == []
  {
  }

  lemma StepNoOverflow(c: Config, s: State, a: Action)
    requires c.nonblock && Enabled(c, s, a) && NoOverflow(s)
    ensures NoOverflow(Apply(c, s, a))
  {
    if a.Sub? {
      SubNoOverflow(c, s, a.id);
    } else if a.Work? {
      WorkNoOverflow(c, s, a.g, a.now, a.panics);
    }
  }

  lemma {:induction false} RunNoOverflow(c: Config, s: State, run: seq<Action>)
    requires c.nonblock && Fires(c, s, run) && NoOverflow(s)
    ensures NoOverflow(After(c, s, run))
    decreases |run|
  {
    if run != [] {
      StepNoOverflow(c, s, run[0]);
      RunNoOverflow(c, Apply(c, s, run[0]), run[1..]);
    }
  }

  /** In NONBLOCK mode nobody waits for room and nothing ever enters the overflow buffer. */
  lemma NonblockNeverBuffers(c: Config, s: State)
    requires c.nonblock && Reachable(c, s)
    ensures s.buffer == [] && forall id :: 0 <= id < |s.jobs| ==> !UsesBuffer(s.jobs[id].pc)
  {
    var run :| Fires(c, Init(c), run) && s == After(c, Init(c), run);
    RunNoOverflow(c, Init(c), run);
  }
}
