/** The scaler rescues a deserted pool whatever it reads: no choice of medians, queue depth or eligibility delays it. */
module Rescue {
  import opened Shards
  import opened Scaling
  import opened ScalingLaws
  import opened Protocol
  import opened Invariant
  import opened Drain

  predicate OfScaler(a: Action) {
    a.ScalerStep? || a.Decide? || a.PopIdle?
  }

  predicate AllOfScaler(run: seq<Action>) {
    forall i :: 0 <= i < |run| ==> OfScaler(run[i])
  }

  /** How many scaler actions may pass before a goroutine starts, in a deserted pool. */
  function Delay(pc: ScalerPc): nat {
    match pc
    case Start(_, _) => 1
    case Spawn(left) => if left > 0 then 2 else 11
    case Add(_, _) => 3
    case Recheck(_) => 4
    case SawBacklog(r, _, b) => if r == 0 && b > 0 then 5 else 12
    case SawDepth(r, _) => if r == 0 then 6 else 13
    case SawRunning(r) => if r == 0 then 7 else 14
    case Asleep => 8
    case ReadPending => 9
    case ReadClosed => 10
    case Stopped => 0
  }

  const MAX_DELAY := 14

  /** Whatever the decision reads, a tick that saw no worker and a backlog asks for workers. */
  lemma ColdDecision(c: Config, s: State, a: Action)
    requires c.Valid() && DecideEnabled(c, s, a) && s.scaler.r == 0 && s.scaler.depth >= 0 && s.scaler.backlog > 0
    ensures DecideApply(c, s, a).scaler.Recheck?
  {
    var SawBacklog(r, d, b) := s.scaler;
    TickBound(c.knobs, Readings(a.submitMed, a.consumeMed, a.exitMed, r, d, b, a.queued, a.eligible), 0);
  }

  lemma DelayFalls(c: Config, s: State, a: Action, n: nat)
    requires c.Valid() && Deserted(c, s, n) && Enabled(c, s, a) && OfScaler(a) && !(a.ScalerStep? && s.scaler.Start?)
    ensures Delay(Apply(c, s, a).scaler) < Delay(s.scaler)
  {
    DesertedFacts(c, s, n);
    DelayStep(c, s, a);
  }

  lemma DelayStep(c: Config, s: State, a: Action)
    requires c.Valid() && ScalerOk(c, s) && Enabled(c, s, a) && OfScaler(a) && !(a.ScalerStep? && s.scaler.Start?)
    requires s.running == ScalerReserved(s.scaler) && s.pending > 0
    ensures Delay(Apply(c, s, a).scaler) < Delay(s.scaler)
  {
    if a.Decide? && s.scaler.r == 0 && s.scaler.backlog > 0 {
      ColdDecision(c, s, a);
    }
  }

  lemma ScalerKeepsGors(c: Config, s: State, a: Action)
    requires Enabled(c, s, a) && OfScaler(a)
    ensures |Apply(c, s, a).gors| == |s.gors| + if a.ScalerStep? && s.scaler.Start? then 1 else 0
  {
  }

  lemma {:induction false} GorsStay(c: Config, s: State, run: seq<Action>)
    requires Fires(c, s, run) && AllOfScaler(run)
    ensures |After(c, s, run).gors| >= |s.gors|
    decreases |run|
  {
    if run != [] {
      ScalerKeepsGors(c, s, run[0]);
      GorsStay(c, Apply(c, s, run[0]), run[1..]);
    }
  }

  lemma {:induction false} StartsWithin(c: Config, s: State, run: seq<Action>, n: nat)
    requires c.Valid() && Deserted(c, s, n) && Fires(c, s, run) && AllOfScaler(run) && |run| >= Delay(s.scaler)
    ensures |After(c, s, run).gors| > |s.gors|
    decreases |run|
  {
    DesertedFacts(c, s, n);
    var a := run[0];
    ScalerKeepsGors(c, s, a);
    if a.ScalerStep? && s.scaler.Start? {
      GorsStay(c, Apply(c, s, a), run[1..]);
    } else {
      DelayFalls(c, s, a, n);
      var t := ScalerMoves(c, s, a, n);
      StartsWithin(c, t, run[1..], n);
    }
  }

  /** The scaler is never stuck there: some action of its own is enabled. */
  lemma ScalerHasNext(c: Config, s: State, n: nat) returns (a: Action)
    requires c.Valid() && Deserted(c, s, n)
    ensures OfScaler(a) && Enabled(c, s, a)
  {
    DesertedFacts(c, s, n);
    ShardInRange(0, c.shards);
    match s.scaler
    case SawBacklog(_, _, _) => a := Decide(0.0, 0.0, 0.0, 0, false);
    case Spawn(left) => a := if left > 0 then PopIdle(0) else ScalerStep;
    case _ => a := ScalerStep;
  }

  /**
   With every worker parked and work remaining, every run of fourteen scaler actions starts a worker,
   for all medians, queue depths, eligibilities and idle picks; and by ScalerHasNext the next action is always there.
   */
  lemma EveryScalerRunStarts(c: Config, s: State, run: seq<Action>, n: nat)
    requires c.Valid() && Deserted(c, s, n) && Fires(c, s, run) && AllOfScaler(run) && |run| >= MAX_DELAY
    ensures |After(c, s, run).gors| > |s.gors|
  {
    StartsWithin(c, s, run, n);
  }
}
