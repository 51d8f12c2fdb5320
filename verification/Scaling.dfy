/** The scaler's arithmetic: how many workers one tick asks for. */
module Scaling {

  /** The tunables that scaleIfNeeded reads; capacity, step and periods are positive. */
  datatype Knobs = Knobs(capacity: int, decay: real, maxStep: int, scalerPeriod: int, samplePeriod: int) {
    predicate Valid() {
      capacity >= 1 && 0.0 <= decay <= 1.0 && maxStep >= 1 && scalerPeriod >= 1 && samplePeriod >= 1
    }
  }

  /** What one tick reads; eligible says that the zero-consume interval has passed. */
  datatype Readings = Readings(submitMed: real, consumeMed: real, exitMed: real,
                               running: int, bufDepth: int, backlog: int, queued: int, eligible: bool) {
    predicate Valid() {
      submitMed >= 0.0 && consumeMed >= 0.0 && exitMed >= 0.0
      && running >= 0 && bufDepth >= 0 && backlog >= 0 && queued >= 0
    }
  }

  function Min(a: int, b: int): int { if a < b then a else b }
  function Max(a: int, b: int): int { if a > b then a else b }
  function MinReal(a: real, b: real): real { if a < b then a else b }

  /** Conversion of a float to int64: truncation toward zero. */
  function Trunc(x: real): int {
    if x >= 0.0 then x.Floor else -((-x).Floor)
  }

  function Times(a: real, b: real): real { a * b }

  function Ratio(a: real, b: real): real
    requires b > 0.0
  {
    a / b
  }

  /** Workers needed for the given arrivals when running workers consume med per window. */
  function Load(arrivals: real, running: int, med: real): int
    requires med > 0.0
  {
    Trunc(Ratio(Times(arrivals, running as real), med))
  }

  function RateTarget(r: Readings): int {
    if r.running > 0 && r.consumeMed > 0.0 && r.submitMed > 0.0
    then Load(r.submitMed, r.running, r.consumeMed)
    else 0
  }

  function DynamicDecay(k: Knobs, r: Readings): real
    requires r.consumeMed > 0.0
  {
    k.decay + Times(1.0 - k.decay, MinReal(1.0, Ratio(r.bufDepth as real, r.consumeMed) * 0.15))
  }

  function BacklogTarget(k: Knobs, r: Readings): int
    requires r.consumeMed > 0.0
  {
    Load(r.submitMed + Times(r.backlog as real, DynamicDecay(k, r)), r.running, r.consumeMed)
  }

  function Growth(k: Knobs, r: Readings): int {
    Min(Min(Min(r.queued, Max(1, r.running)), k.maxStep), k.capacity - r.running)
  }

  function RawTarget(k: Knobs, r: Readings): int {
    if r.backlog <= 0 then RateTarget(r)
    else if r.running == 0 then r.backlog
    else if r.consumeMed > 0.0 then Max(RateTarget(r), BacklogTarget(k, r))
    else if r.queued > 0 && k.capacity - r.running > 0 && r.eligible then r.running + Growth(k, r)
    else RateTarget(r)
  }

  /** The target after the pending-task brake and the capacity clamp. */
  function Target(k: Knobs, r: Readings): int {
    Min(Min(RawTarget(k, r), r.backlog), k.capacity)
  }

  function ExitPerTick(k: Knobs, r: Readings): int
    requires k.Valid()
  {
    Trunc(Ratio(Times(r.exitMed, k.scalerPeriod as real), k.samplePeriod as real))
  }

  /** The number of workers that one tick carries into the locked re-check; 0 when it returns early. */
  function Demand(k: Knobs, r: Readings): int
    requires k.Valid()
  {
    if Target(k, r) <= r.running then 0
    else Max(0, Min(Target(k, r) - r.running + Max(0, ExitPerTick(k, r)), k.capacity - r.running))
  }

  /** The computation of a tick, branch by branch; a return of 0 stands for its early returns. */
  method ToSpawn(k: Knobs, r: Readings) returns (toSpawn: int)
    requires k.Valid() && r.Valid()
    ensures toSpawn == Demand(k, r)
  {
    var target := 0;
    if r.running > 0 && r.consumeMed > 0.0 && r.submitMed > 0.0 {
      target := Trunc(Ratio(Times(r.submitMed, r.running as real), r.consumeMed));
    }
    if r.backlog > 0 {
      if r.running == 0 {
        target := r.backlog;
      } else if r.consumeMed > 0.0 {
        var bufPressure := MinReal(1.0, Ratio(r.bufDepth as real, r.consumeMed) * 0.15);
        var dynamicDecay := k.decay + Times(1.0 - k.decay, bufPressure);
        var effectiveSubmit := r.submitMed + Times(r.backlog as real, dynamicDecay);
        var qTarget := Trunc(Ratio(Times(effectiveSubmit, r.running as real), r.consumeMed));
        if qTarget > target {
          target := qTarget;
        }
      } else {
        var room := k.capacity - r.running;
        if r.queued > 0 && room > 0 && r.eligible {
          target := r.running + Min(Min(Min(r.queued, Max(1, r.running)), k.maxStep), room);
        }
      }
    }
    target := Min(target, r.backlog);
    target := Min(target, k.capacity);
    if target <= r.running {
      return 0;
    }
    toSpawn := target - r.running;
    var exitPerTick := ExitPerTick(k, r);
    if exitPerTick > 0 {
      toSpawn := toSpawn + exitPerTick;
    }
    toSpawn := Min(toSpawn, k.capacity - r.running);
    if toSpawn <= 0 {
      return 0;
    }
  }

  /** What the locked re-check grants, given the worker count read under the lock. */
  function Grant(k: Knobs, demand: int, current: int): int {
    Max(0, Min(demand, k.capacity - current))
  }
}
