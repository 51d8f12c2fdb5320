/** Bounds and monotonicity of the scaler's target, and the zero-consume ramp-up. */
module ScalingLaws {
  import opened Scaling

  /**
   One tick starts at most the gap between min(pending, capacity) and the running count, plus the
   exit compensation; it starts none when that gap is closed, whatever the medians say.
   */
  lemma TickBound(k: Knobs, r: Readings, current: int)
    requires k.Valid() && r.Valid()
    ensures 0 <= Grant(k, Demand(k, r), current) <= Demand(k, r)
    ensures Demand(k, r) <= Max(0, Min(r.backlog, k.capacity) - r.running) + Max(0, ExitPerTick(k, r))
    ensures Demand(k, r) <= Max(0, k.capacity - r.running)
    ensures Min(r.backlog, k.capacity) <= r.running ==> Demand(k, r) == 0
    ensures r.running == 0 && r.backlog > 0 ==> Demand(k, r) >= Min(r.backlog, k.capacity)
  {
  }

  // ---- real arithmetic ----

  lemma MulMono(a: real, b: real, c: real)
    requires a <= b && c >= 0.0
    ensures a * c <= b * c
  {
    assert (b - a) * c >= 0.0;
    assert b * c - a * c == (b - a) * c;
  }

  /** Products of non-negative factors grow with both. */
  lemma TimesMono(a: real, b: real, c: real, d: real)
    requires 0.0 <= a <= b && 0.0 <= c <= d
    ensures 0.0 <= Times(a, c) <= Times(b, d)
  {
    MulMono(0.0, a, c);
    MulMono(a, b, c);
    MulMono(c, d, b);
    assert b * c == c * b && d * b == b * d;
  }

  lemma LeFromMul(a: real, b: real, c: real)
    requires c > 0.0 && a * c <= b * c
    ensures a <= b
  {
    assert a * c - b * c == (a - b) * c;
    assert a > b ==> (a - b) * c > 0.0;
  }

  /** A ratio grows with its numerator and shrinks with its denominator. */
  lemma RatioMono(x: real, y: real, c: real, d: real)
    requires 0.0 <= x <= y && 0.0 < d <= c
    ensures 0.0 <= Ratio(x, c) <= Ratio(y, d)
  {
    var p, q := x / c, y / d;
    assert p * c == x && q * d == y;
    LeFromMul(0.0, p, c);
    MulMono(d, c, p);
    assert d * p == p * d && c * p == p * c;
    LeFromMul(p, q, d);
  }

  lemma TruncMono(x: real, y: real)
    requires 0.0 <= x <= y
    ensures 0 <= Trunc(x) <= Trunc(y)
  {
  }

  // ---- the dynamic decay ----

  function Pressure(r: Readings): real
    requires r.consumeMed > 0.0
  {
    MinReal(1.0, Ratio(r.bufDepth as real, r.consumeMed) * 0.15)
  }

  lemma PressureRange(r: Readings)
    requires r.Valid() && r.consumeMed > 0.0
    ensures 0.0 <= Pressure(r) <= 1.0
  {
    RatioMono(r.bufDepth as real, r.bufDepth as real, r.consumeMed, r.consumeMed);
  }

  /** The dynamic decay stays between the configured factor and 1. */
  lemma DecayRange(k: Knobs, r: Readings)
    requires k.Valid() && r.Valid() && r.consumeMed > 0.0
    ensures k.decay <= DynamicDecay(k, r) <= 1.0
  {
    PressureRange(r);
    TimesMono(1.0 - k.decay, 1.0 - k.decay, Pressure(r), 1.0);
  }

  // ---- monotonicity ----

  /** r' shows at least as much demand and at most as much consumption, for the same running workers. */
  predicate MoreDemand(r: Readings, r': Readings) {
    r.Valid() && r'.Valid() && r.running == r'.running > 0
    && r.submitMed <= r'.submitMed && r.backlog <= r'.backlog && r.bufDepth <= r'.bufDepth
    && r.consumeMed >= r'.consumeMed > 0.0
  }

  /** The same knobs but for a decay factor at least as large. */
  predicate MoreDecay(k: Knobs, k': Knobs) {
    k.Valid() && k'.Valid() && k' == k.(decay := k'.decay) && k.decay <= k'.decay
  }

  lemma PressureMono(r: Readings, r': Readings)
    requires MoreDemand(r, r')
    ensures Pressure(r) <= Pressure(r')
  {
    RatioMono(r.bufDepth as real, r'.bufDepth as real, r.consumeMed, r'.consumeMed);
  }

  lemma MixExpand(d: real, q: real)
    ensures d + Times(1.0 - d, q) == q + d * (1.0 - q)
  {
    assert (1.0 - d) * q == q - d * q;
    assert d * (1.0 - q) == d - d * q;
  }

  /** d + (1 - d) p grows with d and with p, for both in [0, 1]. */
  lemma MixMono(d: real, e: real, p: real, q: real)
    requires 0.0 <= d <= e <= 1.0 && 0.0 <= p <= q <= 1.0
    ensures d + Times(1.0 - d, p) <= e + Times(1.0 - e, q)
  {
    TimesMono(1.0 - d, 1.0 - d, p, q);
    MixExpand(d, q);
    MixExpand(e, q);
    MulMono(d, e, 1.0 - q);
  }

  lemma DecayMono(k: Knobs, k': Knobs, r: Readings, r': Readings)
    requires MoreDemand(r, r') && MoreDecay(k, k')
    ensures DynamicDecay(k, r) <= DynamicDecay(k', r')
  {
    PressureMono(r, r');
    PressureRange(r);
    PressureRange(r');
    MixMono(k.decay, k'.decay, Pressure(r), Pressure(r'));
  }

  lemma LoadMono(a: real, b: real, running: int, c: real, d: real)
    requires 0.0 <= a <= b && running >= 0 && 0.0 < d <= c
    ensures 0 <= Load(a, running, c) <= Load(b, running, d)
  {
    var n := running as real;
    TimesMono(a, b, n, n);
    RatioMono(Times(a, n), Times(b, n), c, d);
    TruncMono(Ratio(Times(a, n), c), Ratio(Times(b, n), d));
  }

  lemma RateMono(r: Readings, r': Readings)
    requires MoreDemand(r, r')
    ensures 0 <= RateTarget(r) <= RateTarget(r')
  {
    LoadMono(r.submitMed, r'.submitMed, r.running, r.consumeMed, r'.consumeMed);
  }

  lemma BacklogMono(k: Knobs, k': Knobs, r: Readings, r': Readings)
    requires MoreDemand(r, r') && MoreDecay(k, k')
    ensures 0 <= BacklogTarget(k, r) <= BacklogTarget(k', r')
  {
    var d, d' := DynamicDecay(k, r), DynamicDecay(k', r');
    DecayRange(k, r);
    DecayMono(k, k', r, r');
    var b, b' := r.backlog as real, r'.backlog as real;
    TimesMono(b, b', d, d');
    LoadMono(r.submitMed + Times(b, d), r'.submitMed + Times(b', d'), r.running, r.consumeMed, r'.consumeMed);
  }

  /**
   With running workers and a positive consume median, the target is monotone in the submit median,
   the pending count, the buffer depth and the decay factor, and antitone in the consume median.
   */
  lemma TargetMono(k: Knobs, k': Knobs, r: Readings, r': Readings)
    requires MoreDemand(r, r') && MoreDecay(k, k')
    ensures Target(k, r) <= Target(k', r')
  {
    RateMono(r, r');
    BacklogMono(k, k', r, r');
  }

  // ---- the exact target ----

  /** Comparing a quotient is comparing by cross-multiplication. */
  lemma QuotientAt(a: real, b: real, x: real, n: real)
    requires b > 0.0 && x * b == a
    ensures x >= n <==> Times(n, b) <= a
  {
    if x >= n {
      MulMono(n, x, b);
    } else {
      LeFromMulStrict(n, x, b);
    }
  }

  /** A truncated quotient reaches n exactly when n times the divisor is within the dividend. */
  lemma QuotientReaches(a: real, b: real, n: int)
    requires a >= 0.0 && b > 0.0 && n >= 1
    ensures Trunc(Ratio(a, b)) >= n <==> Times(n as real, b) <= a
  {
    RatioMono(a, a, b, b);
    RatioTimes(a, b);
    QuotientAt(a, b, Ratio(a, b), n as real);
    FloorReaches(Ratio(a, b), n);
  }

  lemma FloorReaches(x: real, n: int)
    ensures x.Floor >= n <==> x >= n as real
  {
  }

  lemma RatioTimes(a: real, b: real)
    requires b > 0.0
    ensures Ratio(a, b) * b == a
  {
  }

  lemma LoadReaches(arrivals: real, running: int, med: real, n: int)
    requires arrivals >= 0.0 && running >= 0 && med > 0.0 && n >= 1
    ensures Load(arrivals, running, med) >= n <==> Times(n as real, med) <= Times(arrivals, running as real)
  {
    TimesMono(arrivals, arrivals, running as real, running as real);
    QuotientReaches(Times(arrivals, running as real), med, n);
  }

  lemma LeFromMulStrict(a: real, b: real, c: real)
    requires c > 0.0 && a > b
    ensures a * c > b * c
  {
    assert (a - b) * c > 0.0;
    assert a * c - b * c == (a - b) * c;
  }

  /** The decay of a tick, from the buffer pressure p: a fraction 0.15 of the windows that draining the buffer takes. */
  lemma DecayIs(k: Knobs, r: Readings, p: real)
    requires r.consumeMed > 0.0 && Times(p, r.consumeMed) == 0.15 * r.bufDepth as real
    ensures DynamicDecay(k, r) == k.decay + Times(1.0 - k.decay, MinReal(1.0, p))
  {
    var x := Ratio(r.bufDepth as real, r.consumeMed);
    RatioTimes(r.bufDepth as real, r.consumeMed);
    PullFactor(x, r.consumeMed);
    SameQuotient(p, x * 0.15, r.consumeMed);
  }

  lemma PullFactor(x: real, c: real)
    ensures (x * 0.15) * c == 0.15 * (x * c)
  {
  }

  lemma SameQuotient(p: real, q: real, c: real)
    requires c > 0.0 && p * c == q * c
    ensures p == q
  {
    if p > q {
      LeFromMulStrict(p, q, c);
    } else if q > p {
      LeFromMulStrict(q, p, c);
    }
  }

  /**
   The target with running workers, a backlog and a positive consume median, by cross-multiplication over the
   readings: it reaches n exactly when n is within the backlog and the capacity, and n workers' share
   of the consume rate is covered by the arrivals, either as submitted or with the decayed backlog added.
   */
  lemma TargetExactly(k: Knobs, r: Readings, p: real, d: real, n: int)
    requires k.Valid() && r.Valid() && r.running > 0 && r.backlog > 0 && r.consumeMed > 0.0 && n >= 1
    requires p * r.consumeMed == 0.15 * r.bufDepth as real
    requires d == k.decay + (1.0 - k.decay) * MinReal(1.0, p)
    ensures Target(k, r) >= n <==>
      n <= r.backlog && n <= k.capacity
      && (n as real * r.consumeMed <= r.submitMed * r.running as real
          || n as real * r.consumeMed <= (r.submitMed + r.backlog as real * d) * r.running as real)
  {
    TargetReaches(k, r, p, d, n);
    WrittenOut(r, d, n);
  }

  /** The products of TargetReaches written out. */
  lemma WrittenOut(r: Readings, d: real, n: int)
    ensures Times(n as real, r.consumeMed) == n as real * r.consumeMed
    ensures Times(r.submitMed, r.running as real) == r.submitMed * r.running as real
    ensures Times(r.submitMed + Times(r.backlog as real, d), r.running as real) == (r.submitMed + r.backlog as real * d) * r.running as real
  {
  }

  lemma TargetReaches(k: Knobs, r: Readings, p: real, d: real, n: int)
    requires k.Valid() && r.Valid() && r.running > 0 && r.backlog > 0 && r.consumeMed > 0.0 && n >= 1
    requires Times(p, r.consumeMed) == 0.15 * r.bufDepth as real
    requires d == k.decay + Times(1.0 - k.decay, MinReal(1.0, p))
    ensures Target(k, r) >= n <==>
      n <= r.backlog && n <= k.capacity
      && (Times(n as real, r.consumeMed) <= Times(r.submitMed, r.running as real)
          || Times(n as real, r.consumeMed) <= Times(r.submitMed + Times(r.backlog as real, d), r.running as real))
  {
    DecayIs(k, r, p);
    DecayRange(k, r);
    TimesMono(r.backlog as real, r.backlog as real, d, d);
    LoadReaches(r.submitMed + Times(r.backlog as real, d), r.running, r.consumeMed, n);
    RateReaches(r, n);
  }

  lemma RateReaches(r: Readings, n: int)
    requires r.Valid() && r.running > 0 && r.consumeMed > 0.0 && n >= 1
    ensures RateTarget(r) >= n <==> Times(n as real, r.consumeMed) <= Times(r.submitMed, r.running as real)
  {
    LoadReaches(r.submitMed, r.running, r.consumeMed, n);
    LeFromMulStrict(n as real, 0.0, r.consumeMed);
  }

  /** The exit compensation: the exits per sample window, rescaled to a tick and truncated. */
  lemma ExitExactly(k: Knobs, r: Readings, n: int)
    requires k.Valid() && r.Valid() && n >= 1
    ensures ExitPerTick(k, r) >= 0
    ensures ExitPerTick(k, r) >= n <==> n as real * k.samplePeriod as real <= r.exitMed * k.scalerPeriod as real
  {
    var a, b := Times(r.exitMed, k.scalerPeriod as real), k.samplePeriod as real;
    TimesMono(r.exitMed, r.exitMed, k.scalerPeriod as real, k.scalerPeriod as real);
    RatioMono(a, a, b, b);
    QuotientReaches(a, b, n);
    assert Times(n as real, b) == n as real * b;
  }

  /** The demand: what the target exceeds the running count by, with the exit compensation, within the room. */
  lemma DemandExactly(k: Knobs, r: Readings, n: int)
    requires k.Valid() && n >= 1
    ensures Demand(k, r) >= n <==>
      Target(k, r) > r.running && n <= k.capacity - r.running && n <= Target(k, r) - r.running + Max(0, ExitPerTick(k, r))
  {
  }

  /** The locked re-check grants as much of the demand as the count read under the lock leaves room for. */
  lemma GrantExactly(k: Knobs, demand: int, current: int, n: int)
    requires n >= 1
    ensures Grant(k, demand, current) >= n <==> n <= demand && n <= k.capacity - current
    ensures Grant(k, demand, current) >= 0
  {
  }

  // ---- the zero-consume ramp-up ----

  /** The growth of a zero-consume tick before the pending brake: none unless work is queued, there is room and the interval has passed. */
  function RampGrowth(k: Knobs, r: Readings): int {
    if r.queued > 0 && r.running < k.capacity && r.eligible then Growth(k, r) else 0
  }

  /** What the brake leaves of it. */
  function Braked(k: Knobs, r: Readings): int {
    Max(0, Min(RampGrowth(k, r), r.backlog - r.running))
  }

  /**
   Zero-consume ticks with running workers, for all readings: the growth is min(queued, max(1, running),
   step, room) or nothing; the brake lets through what pending exceeds running by; and the brake binds
   exactly when the pending reading is short of running plus growth.
   */
  lemma RampStep(k: Knobs, r: Readings)
    requires k.Valid() && r.Valid() && r.consumeMed == 0.0 && r.running > 0
    ensures RampGrowth(k, r) == Max(0, if r.eligible then Min(Min(r.queued, r.running), Min(k.maxStep, k.capacity - r.running)) else 0)
    ensures Demand(k, r)
      == if Braked(k, r) == 0 then 0 else Min(Braked(k, r) + Max(0, ExitPerTick(k, r)), k.capacity - r.running)
    ensures Braked(k, r) < RampGrowth(k, r) <==> RampGrowth(k, r) > 0 && r.backlog < r.running + RampGrowth(k, r)
    ensures r.backlog >= r.running + r.queued ==> Braked(k, r) == RampGrowth(k, r)
  {
  }
}
