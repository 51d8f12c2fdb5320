/** The shards that submissions and workers choose along a run are those of consecutive round-robin calls. */
module Rotation {
  import opened Shards
  import opened Protocol
  import opened LastActive

  // ---- submissions ----

  predicate HasShard(pc: SubPc) {
    pc.Offer? || pc.FwdSend? || pc.FullWait?
  }

  /** The action gives a submission a shard to send to. */
  predicate Chooses(c: Config, s: State, a: Action)
    requires Enabled(c, s, a)
  {
    var t := Apply(c, s, a);
    a.Sub? && a.id < |s.jobs| && a.id < |t.jobs| && !HasShard(s.jobs[a.id].pc) && HasShard(t.jobs[a.id].pc)
  }

  /** The shards chosen along a run, in order. */
  function Choices(c: Config, s: State, run: seq<Action>): seq<nat>
    requires Fires(c, s, run)
    decreases |run|
  {
    if run == [] then []
    else
      var t := Apply(c, s, run[0]);
      (if Chooses(c, s, run[0]) then [t.jobs[run[0].id].pc.k] else []) + Choices(c, t, run[1..])
  }

  lemma SubChooses(c: Config, s: State, id: Id)
    requires SubEnabled(c, s, id)
    ensures var t := SubStep(c, s, id);
      |t.jobs| == |s.jobs|
      && (if !HasShard(s.jobs[id].pc) && HasShard(t.jobs[id].pc)
          then t.sendSeq == NextCursor(s.sendSeq) && t.jobs[id].pc.k == CallShard(s.sendSeq, 0, c.shards)
          else t.sendSeq == s.sendSeq)
  {
    assert CursorAfter(s.sendSeq, 1) == NextCursor(CursorAfter(s.sendSeq, 0));
  }

  lemma WorkKeepsSeq(c: Config, s: State, g: Gid, now: int, panics: bool)
    requires WorkEnabled(c, s, g)
    ensures WorkStep(c, s, g, now, panics).sendSeq == s.sendSeq && WorkStep(c, s, g, now, panics).workerSeq == s.workerSeq
  {
  }

  lemma StepChooses(c: Config, s: State, a: Action)
    requires Enabled(c, s, a) && c.shards >= 1
    ensures var t := Apply(c, s, a);
      if Chooses(c, s, a) then t.sendSeq == NextCursor(s.sendSeq) && t.jobs[a.id].pc.k == CallShard(s.sendSeq, 0, c.shards)
      else t.sendSeq == s.sendSeq
  {
    if a.Sub? {
      SubChooses(c, s, a.id);
    } else if a.Work? {
      WorkKeepsSeq(c, s, a.g, a.now, a.panics);
    }
  }

  lemma {:induction false} CursorShift(start: nat, i: nat)
    ensures CursorAfter(NextCursor(start), i) == CursorAfter(start, i + 1)
  {
    if i > 0 {
      CursorShift(start, i - 1);
    }
  }

  /** Along any run the submissions' choices are the shards of consecutive nextShard calls. */
  lemma {:induction false} ChoicesAreCalls(c: Config, s: State, run: seq<Action>, i: nat)
    requires c.shards >= 1 && Fires(c, s, run) && i < |Choices(c, s, run)|
    ensures Choices(c, s, run)[i] == CallShard(s.sendSeq, i, c.shards)
    decreases |run|
  {
    StepChooses(c, s, run[0]);
    var t := Apply(c, s, run[0]);
    if !Chooses(c, s, run[0]) {
      ChoicesAreCalls(c, t, run[1..], i);
    } else if i > 0 {
      ChoicesAreCalls(c, t, run[1..], i - 1);
      CursorShift(s.sendSeq, i);
    }
  }

  lemma {:induction false} CursorTwice(start: nat, j: nat, i: nat)
    ensures CursorAfter(CursorAfter(start, j), i) == CursorAfter(start, j + i)
  {
    if i > 0 {
      CursorTwice(start, j, i - 1);
    }
  }

  lemma {:induction false} CursorInRange(start: nat, j: nat)
    requires start < CURSOR_RANGE
    ensures CursorAfter(start, j) < CURSOR_RANGE
  {
    if j > 0 {
      CursorInRange(start, j - 1);
    }
  }

  /** Among any n consecutive choices of a run from the new pool, n the number of shards, each shard comes exactly once. */
  lemma ChoicesRotate(c: Config, run: seq<Action>, j: nat, k: nat) returns (i: nat)
    requires c.Valid() && Fires(c, Init(c), run) && k < c.shards && j + c.shards <= |Choices(c, Init(c), run)|
    ensures j <= i < j + c.shards && Choices(c, Init(c), run)[i] == k
    ensures forall m :: j <= m < j + c.shards && Choices(c, Init(c), run)[m] == k ==> m == i
  {
    CursorInRange(0, j);
    i := RoundRobin(CursorAfter(0, j), c.shards, k);
    CallFrom(j, i, c.shards);
    ChoicesAreCalls(c, Init(c), run, j + i);
    forall m | j <= m < j + c.shards && Choices(c, Init(c), run)[m] == k
      ensures m == j + i
    {
      ChoicesAreCalls(c, Init(c), run, m);
      CallFrom(j, m - j, c.shards);
    }
    i := j + i;
  }

  lemma CallFrom(j: nat, i: nat, n: nat)
    requires n >= 1
    ensures CallShard(CursorAfter(0, j), i, n) == CallShard(0, j + i, n)
  {
    CursorTwice(0, j, i + 1);
  }

  // ---- workers ----

  /** The g-th worker that has yet to make its first step will start its scan at the shard of the g-th call. */
  predicate Rotated(c: Config, s: State)
    requires c.shards >= 1
  {
    s.workerSeq == CursorAfter(0, |s.gors|)
    && forall g :: 0 <= g < |s.gors| && s.gors[g].pc.Begin? ==> s.gors[g].cursor == CallShard(0, g, c.shards)
  }

  lemma LaunchRotated(c: Config, s: State, obj: Obj)
    requires c.shards >= 1 && obj < |s.owner| && Rotated(c, s)
    ensures Rotated(c, Launch(c, s, obj))
  {
    assert CursorAfter(0, |s.gors| + 1) == NextCursor(CursorAfter(0, |s.gors|));
  }

  lemma SubRotated(c: Config, s: State, id: Id)
    requires SubEnabled(c, s, id) && Rotated(c, s)
    ensures Rotated(c, SubStep(c, s, id))
  {
    if s.jobs[id].pc.ColdStart? {
      LaunchRotated(c, WithPc(s, id, Pick), s.jobs[id].pc.obj);
    }
  }

  lemma WorkRotated(c: Config, s: State, g: Gid, now: int, panics: bool)
    requires WorkEnabled(c, s, g) && Rotated(c, s)
    ensures Rotated(c, WorkStep(c, s, g, now, panics))
  {
    WorkKeepsSeq(c, s, g, now, panics);
    var t := WorkStep(c, s, g, now, panics);
    forall h | 0 <= h < |t.gors| && t.gors[h].pc.Begin?
      ensures t.gors[h].cursor == CallShard(0, h, c.shards)
    {
      if h != g {
        WorkGors(c, s, g, now, panics, h);
      }
    }
    OwnStep(c, s, g, now, panics);
  }

  lemma StepRotated(c: Config, s: State, a: Action)
    requires c.shards >= 1 && Enabled(c, s, a) && Rotated(c, s)
    ensures Rotated(c, Apply(c, s, a))
  {
    if a.Sub? {
      SubRotated(c, s, a.id);
    } else if a.Work? {
      WorkRotated(c, s, a.g, a.now, a.panics);
    } else if a.ScalerStep? && s.scaler.Start? {
      LaunchRotated(c, s, s.scaler.obj);
    }
  }

  lemma {:induction false} RunRotated(c: Config, s: State, run: seq<Action>)
    requires c.shards >= 1 && Fires(c, s, run) && Rotated(c, s)
    ensures Rotated(c, After(c, s, run))
    decreases |run|
  {
    if run != [] {
      StepRotated(c, s, run[0]);
      RunRotated(c, Apply(c, s, run[0]), run[1..]);
    }
  }

  /** In every reachable state a worker that is about to start scans first the shard that its turn gives it. */
  lemma WorkersRotate(c: Config, s: State, g: Gid)
    requires c.Valid() && Reachable(c, s) && g < |s.gors| && s.gors[g].pc.Begin?
    ensures c.shards >= 1 && s.gors[g].cursor == CallShard(0, g, c.shards)
  {
    ShardInRange(0, c.shards);
    var run :| Fires(c, Init(c), run) && s == After(c, Init(c), run);
    RunRotated(c, Init(c), run);
  }
}
