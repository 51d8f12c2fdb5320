/** The zero-consume ramp-up seen from the protocol: busy workers and queued tasks are all pending. */
module Ramp {
  import opened Counting
  import opened Scaling
  import opened ScalingLaws
  import opened Protocol
  import opened Invariant
  import opened Steps
  import opened Capacity

  /** Every running worker holds a task it has not settled, and no slot is merely reserved. */
  predicate AllBusy(s: State) {
    (forall g :: 0 <= g < |s.gors| && Alive(s.gors[g]) ==> s.gors[g].pc.Run? && s.gors[g].pc.phase != Releasing)
    && Count(s.jobs, Reserving) == 0 && ScalerReserved(s.scaler) == 0
  }

  /** The task that each running worker is on. */
  function Current(gors: seq<Goroutine>): seq<Id> {
    if gors == [] then []
    else
      var w := gors[|gors| - 1];
      Current(gors[..|gors| - 1]) + (if w.pc.Run? && w.pc.batch != [] then [w.pc.batch[0]] else [])
  }

  /** queuedTasks: what the shards and the overflow buffer hold. */
  function Queued(s: State): nat {
    |Concat(s.shards)| + |s.buffer|
  }

  function Elements(q: seq<Id>): set<Id> {
    set x | x in q
  }

  lemma {:induction false} DistinctSize(q: seq<Id>)
    requires Distinct(q)
    ensures |Elements(q)| == |q|
  {
    if q == [] {
      assert Elements(q) == {};
    } else {
      var n := |q| - 1;
      DistinctSize(q[..n]);
      assert q == q[..n] + [q[n]];
      assert q[n] !in Elements(q[..n]);
      assert Elements(q) == Elements(q[..n]) + {q[n]};
    }
  }

  function Those(jobs: seq<Job>, p: Job -> bool): set<Id> {
    set id | 0 <= id < |jobs| && p(jobs[id])
  }

  lemma {:induction false} CountIsSize(jobs: seq<Job>, p: Job -> bool)
    ensures Count(jobs, p) == |Those(jobs, p)|
  {
    if jobs == [] {
      assert Those(jobs, p) == {};
    } else {
      var n := |jobs| - 1;
      CountIsSize(jobs[..n], p);
      ThoseStep(jobs, p, n);
      assert n !in Those(jobs[..n], p);
    }
  }

  lemma ThoseStep(jobs: seq<Job>, p: Job -> bool, n: nat)
    requires |jobs| == n + 1
    ensures Those(jobs, p) == Those(jobs[..n], p) + if p(jobs[n]) then {n} else {}
  {
    forall id
      ensures id in Those(jobs, p) <==> id in Those(jobs[..n], p) || (p(jobs[n]) && id == n)
    {
      assert 0 <= id < n ==> jobs[..n][id] == jobs[id];
    }
  }

  /** Distinct tasks of a kind are at most as many as the jobs of that kind. */
  lemma DistinctCount(jobs: seq<Job>, q: seq<Id>, p: Job -> bool)
    requires Distinct(q) && forall i :: 0 <= i < |q| ==> q[i] < |jobs| && p(jobs[q[i]])
    ensures |q| <= Count(jobs, p)
  {
    DistinctSize(q);
    CountIsSize(jobs, p);
    forall id | id in Elements(q)
      ensures id in Those(jobs, p)
    {
    }
    SubsetSize(Elements(q), Those(jobs, p));
  }

  predicate Sharded(j: Job) { j.stage.InShard? }
  predicate Buffered(j: Job) { j.stage.InBuffer? }
  predicate WorkedOn(j: Job) { j.stage.Held? || j.stage.Exec? }

  lemma {:induction false} KindsArePending(jobs: seq<Job>)
    ensures Count(jobs, WorkedOn) + Count(jobs, Sharded) + Count(jobs, Buffered) <= Count(jobs, InPending)
  {
    if jobs != [] {
      KindsArePending(jobs[..|jobs| - 1]);
    }
  }

  lemma {:induction false} ShardTasks(c: Config, jobs: seq<Job>, shards: seq<seq<Id>>)
    requires forall k :: 0 <= k < |shards| ==> ShardOk(c, jobs, shards[k], k)
    ensures Distinct(Concat(shards))
    ensures forall i :: 0 <= i < |Concat(shards)| ==>
      Concat(shards)[i] < |jobs| && jobs[Concat(shards)[i]].stage.InShard? && jobs[Concat(shards)[i]].stage.k < |shards|
  {
    if shards != [] {
      var n := |shards| - 1;
      assert forall k :: 0 <= k < n ==> shards[..n][k] == shards[k];
      ShardTasks(c, jobs, shards[..n]);
      assert ShardOk(c, jobs, shards[n], n);
    }
  }

  /** The current tasks are distinct, held by their own workers, and one for each running worker. */
  lemma {:induction false} CurrentTasks(c: Config, jobs: seq<Job>, gors: seq<Goroutine>)
    requires forall g :: 0 <= g < |gors| ==> GorOk(c, jobs, gors[g], g)
    requires forall g :: 0 <= g < |gors| && Alive(gors[g]) ==> gors[g].pc.Run? && gors[g].pc.phase != Releasing
    ensures |Current(gors)| == Count(gors, Alive) && Distinct(Current(gors))
    ensures forall i :: 0 <= i < |Current(gors)| ==>
      Current(gors)[i] < |jobs| && Working(jobs[Current(gors)[i]].stage, |gors|)
  {
    if gors != [] {
      var n := |gors| - 1;
      assert forall g :: 0 <= g < n ==> gors[..n][g] == gors[g];
      CurrentTasks(c, jobs, gors[..n]);
      var w := gors[n];
      assert GorOk(c, jobs, w, n);
      if Alive(w) {
        var id := w.pc.batch[0];
        assert jobs[id].stage == ExpectedStage(n, w.pc.phase, 0);
        DistinctAppend(Current(gors[..n]), id);
      }
    }
  }

  lemma DistinctAppend(q: seq<Id>, id: Id)
    requires Distinct(q) && id !in q
    ensures Distinct(q + [id])
  {
  }

  predicate Working(st: Stage, n: nat) {
    (st.Held? || st.Exec?) && st.g < n
  }

  /** When every worker is busy, the workers and the queued tasks together are at most the pending tasks. */
  lemma BusyBacklogInv(c: Config, s: State)
    requires Inv(c, s) && AllBusy(s) && s.bufOwner.None?
    ensures s.running + Queued(s) <= s.pending
  {
    ShardTasks(c, s.jobs, s.shards);
    CurrentTasks(c, s.jobs, s.gors);
    assert Unsent(s.jobs, s.buffer, s.bufOwner) == s.buffer;
    DistinctCount(s.jobs, Current(s.gors), WorkedOn);
    DistinctCount(s.jobs, Concat(s.shards), Sharded);
    DistinctCount(s.jobs, s.buffer, Buffered);
    KindsArePending(s.jobs);
  }

  lemma BusyBacklog(c: Config, s: State)
    requires c.Valid() && Reachable(c, s) && AllBusy(s) && s.bufOwner.None?
    ensures s.running + Queued(s) <= s.pending
  {
    ReachableInv(c, s);
    BusyBacklogInv(c, s);
  }

  /** What a Decide works with: the three readings of the scaler and the action's own. */
  function Reading(s: State, a: Action): Readings
    requires s.scaler.SawBacklog? && a.Decide?
  {
    Readings(a.submitMed, a.consumeMed, a.exitMed, s.scaler.r, s.scaler.depth, s.scaler.backlog, a.queued, a.eligible)
  }

  /**
   Every zero-consume decision with running workers, whatever happened between the scaler's readings:
   it carries what the pending brake leaves of the growth, plus the exit compensation, into the
   re-check. The brake binds exactly when the pending reading is below the running reading plus
   min(queued, running, step, room).
   */
  lemma DecideGrows(c: Config, s: State, a: Action)
    requires c.Valid() && Reachable(c, s) && DecideEnabled(c, s, a) && a.consumeMed == 0.0 && s.scaler.r > 0
    ensures var m := Reading(s, a); var n := Braked(c.knobs, m);
      DecideApply(c, s, a).scaler == if n == 0 then ReadClosed
        else Recheck(Min(n + Max(0, ExitPerTick(c.knobs, m)), c.knobs.capacity - m.running))
    ensures var m := Reading(s, a); var n := RampGrowth(c.knobs, m);
      n == (if a.eligible then Max(0, Min(Min(a.queued, m.running), Min(c.knobs.maxStep, c.knobs.capacity - m.running))) else 0)
      && (Braked(c.knobs, m) < n <==> n > 0 && m.backlog < m.running + n)
  {
    ReachableInv(c, s);
    RampStep(c.knobs, Reading(s, a));
  }

  /** Every decision carries the demand of its readings into the re-check, and the re-check grants what the count under the lock leaves room for. */
  lemma TickExactly(c: Config, s: State, a: Action, n: int)
    requires c.Valid() && Enabled(c, s, a) && n >= 1
    ensures a.Decide? ==>
      (DecideApply(c, s, a).scaler.Recheck? && DecideApply(c, s, a).scaler.demand >= n <==> Demand(c.knobs, Reading(s, a)) >= n)
    ensures a.ScalerStep? && s.scaler.Recheck? ==>
      (ScalerApply(c, s).scaler.Add? && ScalerApply(c, s).scaler.actual >= n
       <==> n <= s.scaler.demand && n <= c.knobs.capacity - s.running)
    ensures a.ScalerStep? && s.scaler.Add? && s.scaler.actual >= 0 ==>
      ScalerApply(c, s).scaler == Spawn(s.scaler.actual) && ScalerApply(c, s).running == s.running + s.scaler.actual
  {
    if a.ScalerStep? && s.scaler.Recheck? {
      GrantExactly(c.knobs, s.scaler.demand, s.running, n);
    }
  }

  /** Readings of one state in which every worker is busy: the brake does not bind. */
  lemma SnapshotGrows(c: Config, s: State, r: Readings)
    requires c.Valid() && Inv(c, s) && AllBusy(s) && s.bufOwner.None?
    requires r.Valid() && r.consumeMed == 0.0 && r.running == s.running && r.backlog == s.pending && r.queued == Queued(s)
    requires s.running > 0
    ensures Braked(c.knobs, r) == RampGrowth(c.knobs, r)
  {
    BusyBacklogInv(c, s);
    RampStep(c.knobs, r);
  }
}
