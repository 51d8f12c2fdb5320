/** Shard sizing, mask-based round robin and the worker's scan order. */
module Shards {

  const CURSOR_RANGE := 0x1_0000_0000_0000_0000
  const MIN_SHARDABLE_QUEUE_SIZE := 1024
  const MAX_AUTO_SHARDS := 32

  function Pow2(k: nat): (p: nat)
    ensures p >= 1
  {
    if k == 0 then 1 else 2 * Pow2(k - 1)
  }

  ghost predicate PowerOfTwo(n: int) {
    exists k: nat :: n == Pow2(k)
  }

  /** Bitwise and of two unsigned numbers. */
  function BitAnd(x: nat, y: nat): nat
    decreases x
  {
    if x == 0 || y == 0 then 0
    else 2 * BitAnd(x / 2, y / 2) + (if x % 2 == 1 && y % 2 == 1 then 1 else 0)
  }

  /** The shard that a cursor value selects: seq & (n - 1). */
  function ShardOf(cursor: nat, n: nat): nat
    requires n >= 1
  {
    BitAnd(cursor, n - 1)
  }

  function NextCursor(cursor: nat): nat {
    (cursor + 1) % CURSOR_RANGE
  }

  lemma {:induction false} HalfOfMod(x: nat, m: nat)
    requires m >= 1
    ensures x % (2 * m) == 2 * ((x / 2) % m) + x % 2
  {
    var q, r := (x / 2) / m, (x / 2) % m;
    assert x / 2 == q * m + r;
    assert x == q * (2 * m) + (2 * r + x % 2);
    ModUnique(x, 2 * m, q, 2 * r + x % 2);
  }

  lemma {:induction false} MulAway(d: int, m: int)
    requires m >= 1
    ensures d >= 1 ==> d * m >= m
    ensures d <= -1 ==> d * m <= -m
  {
    if d >= 1 {
      assert d * m == (d - 1) * m + m && (d - 1) * m >= 0;
    } else if d <= -1 {
      assert d * m == (d + 1) * m - m && (d + 1) * m <= 0;
    }
  }

  lemma {:induction false} ModUnique(x: int, m: int, q: int, r: int)
    requires m >= 1 && x == q * m + r && 0 <= r < m
    ensures x % m == r && x / m == q
  {
    var p := x / m;
    assert x == p * m + x % m;
    assert (p - q) * m == p * m - q * m;
    MulAway(p - q, m);
  }

  /** Masking with 2^k - 1 is reduction modulo 2^k. */
  lemma {:induction false} MaskIsMod(x: nat, k: nat)
    ensures BitAnd(x, Pow2(k) - 1) == x % Pow2(k)
  {
    if k == 0 {
    } else if x == 0 {
    } else {
      var m := Pow2(k - 1);
      MaskIsMod(x / 2, k - 1);
      assert (2 * m - 1) / 2 == m - 1 && (2 * m - 1) % 2 == 1;
      HalfOfMod(x, m);
    }
  }

  lemma {:induction false} ShardInRange(cursor: nat, n: nat)
    requires PowerOfTwo(n)
    ensures n >= 1 && ShardOf(cursor, n) == cursor % n < n
  {
    var k: nat :| n == Pow2(k);
    MaskIsMod(cursor, k);
  }

  // ---- wrap-around ----

  lemma {:induction false} Pow2Add(a: nat, b: nat)
    ensures Pow2(a + b) == Pow2(a) * Pow2(b)
  {
    if b == 0 {
      assert Pow2(a) * Pow2(0) == Pow2(a);
    } else {
      Pow2Add(a, b - 1);
      assert Pow2(a) * (2 * Pow2(b - 1)) == 2 * (Pow2(a) * Pow2(b - 1));
    }
  }

  lemma CursorRangeIsPow2()
    ensures Pow2(64) == CURSOR_RANGE
  {
    assert Pow2(4) == 16;
    Pow2Add(4, 4);
    Pow2Add(8, 8);
    Pow2Add(16, 16);
    Pow2Add(32, 32);
  }

  lemma {:induction false} Pow2Increases(a: nat, b: nat)
    requires a < b
    ensures 2 * Pow2(a) <= Pow2(b)
  {
    if a + 1 < b {
      Pow2Increases(a, b - 1);
    }
  }

  lemma {:induction false} ModOfMod(x: nat, n: nat, m: nat)
    requires n >= 1 && m >= 1
    ensures (x % (n * m)) % n == x % n
  {
    var q, r := x / (n * m), x % (n * m);
    assert x == q * (n * m) + r;
    assert q * (n * m) == (q * m) * n;
    assert r == (r / n) * n + r % n;
    assert x == (q * m + r / n) * n + r % n;
    ModUnique(x, n, q * m + r / n, r % n);
  }

  /** A shard count that fits the 64-bit cursor divides its range, so wrapping does not disturb the choice. */
  lemma WrapKeepsShard(x: nat, n: nat)
    requires PowerOfTwo(n) && n <= CURSOR_RANGE
    ensures n >= 1 && ShardOf(x % CURSOR_RANGE, n) == x % n
  {
    var k: nat :| n == Pow2(k);
    CursorRangeIsPow2();
    if k > 64 {
      Pow2Increases(64, k);
    } else {
      Pow2Add(k, 64 - k);
      ModOfMod(x, n, Pow2(64 - k));
      ShardInRange(x % CURSOR_RANGE, n);
    }
  }

  /** Among n consecutive cursor values each residue occurs. */
  lemma ResidueHit(start: nat, n: nat, k: nat) returns (i: nat)
    requires n >= 1 && k < n
    ensures i < n && (start + i) % n == k
  {
    var r := start % n;
    i := if r <= k then k - r else k + n - r;
    var q := start / n;
    assert start == q * n + r;
    if r <= k {
      ModUnique(start + i, n, q, k);
    } else {
      assert (q + 1) * n == q * n + n;
      ModUnique(start + i, n, q + 1, k);
    }
  }

  lemma {:induction false} ResidueOnce(start: nat, n: nat, i: nat, j: nat)
    requires n >= 1 && i <= j < n && (start + i) % n == (start + j) % n
    ensures i == j
  {
    var r := (start + i) % n;
    var p, q := (start + i) / n, (start + j) / n;
    assert start + i == p * n + r && start + j == q * n + r;
    assert (q - p) * n == j - i;
    MulAway(q - p, n);
  }

  /** The cursor after i further atomic increments of a 64-bit counter. */
  function CursorAfter(start: nat, i: nat): nat {
    if i == 0 then start else NextCursor(CursorAfter(start, i - 1))
  }

  lemma {:induction false} CursorAfterIs(start: nat, i: nat)
    requires start < CURSOR_RANGE
    ensures CursorAfter(start, i) == (start + i) % CURSOR_RANGE
  {
    if i > 0 {
      CursorAfterIs(start, i - 1);
      var a := start + i - 1;
      var q, x := a / CURSOR_RANGE, a % CURSOR_RANGE;
      if x + 1 < CURSOR_RANGE {
        ModUnique(a + 1, CURSOR_RANGE, q, x + 1);
      } else {
        ModUnique(a + 1, CURSOR_RANGE, q + 1, 0);
      }
    }
  }

  /** The shard that the i-th of several consecutive nextShard calls selects. */
  function CallShard(start: nat, i: nat, n: nat): nat
    requires n >= 1
  {
    ShardOf(CursorAfter(start, i + 1), n)
  }

  lemma CallShardIs(start: nat, i: nat, n: nat)
    requires PowerOfTwo(n) && n <= CURSOR_RANGE && start < CURSOR_RANGE
    ensures n >= 1 && CallShard(start, i, n) == (start + 1 + i) % n
  {
    WrapKeepsShard(start + i + 1, n);
    CursorAfterIs(start, i + 1);
  }

  /** Any n consecutive nextShard calls hit each of the n shards exactly once, across the 64-bit wrap too. */
  lemma RoundRobin(start: nat, n: nat, k: nat) returns (i: nat)
    requires PowerOfTwo(n) && n <= CURSOR_RANGE && start < CURSOR_RANGE && k < n
    ensures i < n && CallShard(start, i, n) == k
    ensures forall j :: 0 <= j < n && CallShard(start, j, n) == k ==> j == i
  {
    i := ResidueHit(start + 1, n, k);
    CallShardIs(start, i, n);
    forall j | 0 <= j < n && CallShard(start, j, n) == k
      ensures j == i
    {
      CallShardIs(start, j, n);
      if i <= j {
        ResidueOnce(start + 1, n, i, j);
      } else {
        ResidueOnce(start + 1, n, j, i);
      }
    }
  }

  /** The shard that a worker's scan probes in round i. */
  function ProbeShard(cursor: nat, i: nat, n: nat): nat
    requires n >= 1
  {
    ShardOf((cursor + i) % CURSOR_RANGE, n)
  }

  /** The probes go round from the worker's own shard. */
  lemma ProbeIs(cursor: nat, i: nat, n: nat)
    requires PowerOfTwo(n) && n <= CURSOR_RANGE
    ensures n >= 1 && ProbeShard(cursor, i, n) == (cursor + i) % n < n
  {
    WrapKeepsShard(cursor + i, n);
  }

  /** A scan from any cursor probes each shard exactly once. */
  lemma ScanCovers(cursor: nat, n: nat, k: nat) returns (i: nat)
    requires PowerOfTwo(n) && n <= CURSOR_RANGE && k < n
    ensures i < n && ProbeShard(cursor, i, n) == k
    ensures forall j :: 0 <= j < n && ProbeShard(cursor, j, n) == k ==> j == i
  {
    i := ResidueHit(cursor, n, k);
    WrapKeepsShard(cursor + i, n);
    forall j | 0 <= j < n && ProbeShard(cursor, j, n) == k
      ensures j == i
    {
      WrapKeepsShard(cursor + j, n);
      if i <= j {
        ResidueOnce(cursor, n, i, j);
      } else {
        ResidueOnce(cursor, n, j, i);
      }
    }
  }

  // ---- sizing ----

  /** The shard count asked for, explicitly or by default, before rounding. */
  function Wanted(taskQueueShards: int, taskQueueSize: int, maxprocs: nat): (want: nat)
    ensures want >= 1
  {
    if taskQueueShards > 0 then taskQueueShards
    else if taskQueueSize < MIN_SHARDABLE_QUEUE_SIZE then 1
    else if maxprocs > MAX_AUTO_SHARDS then MAX_AUTO_SHARDS
    else if maxprocs < 1 then 1
    else maxprocs
  }

  const INT64_MIN_ABS := 0x8000_0000_0000_0000

  /** The largest power of two of a 64-bit signed integer. */
  const TOP_SHIFT := 0x4000_0000_0000_0000

  /** x << 1 on a 64-bit signed integer: the product wraps around. */
  function ShiftLeft(x: int): int {
    var y := (2 * x) % CURSOR_RANGE;
    if y >= INT64_MIN_ABS then y - CURSOR_RANGE else y
  }

  /** The value of shards after n rounds of the doubling loop. */
  function Doubled(n: nat): int {
    if n == 0 then 1 else ShiftLeft(Doubled(n - 1))
  }

  lemma ShiftSmall(x: nat)
    requires x < TOP_SHIFT
    ensures ShiftLeft(x) == 2 * x
  {
    ModUnique(2 * x, CURSOR_RANGE, 0, 2 * x);
  }

  lemma ShiftOut()
    ensures ShiftLeft(TOP_SHIFT) == -INT64_MIN_ABS && ShiftLeft(-INT64_MIN_ABS) == 0 && ShiftLeft(0) == 0
  {
  }

  lemma TopShift()
    ensures Pow2(62) == TOP_SHIFT
  {
    CursorRangeIsPow2();
    assert Pow2(64) == 2 * Pow2(63) == 4 * Pow2(62);
  }

  /** Powers of two up to the 62nd, then the sign bit alone, then 0 for good. */
  lemma {:induction false} DoubledIs(n: nat)
    ensures n <= 62 ==> Doubled(n) == Pow2(n) <= TOP_SHIFT
    ensures n == 63 ==> Doubled(n) == -INT64_MIN_ABS
    ensures n >= 64 ==> Doubled(n) == 0
  {
    TopShift();
    ShiftOut();
    if n > 0 {
      DoubledIs(n - 1);
      if n <= 62 {
        Pow2Increases(n - 1, 62);
        ShiftSmall(Pow2(n - 1));
      }
    }
  }

  /** The doubling loop reaches the wanted count after some number of rounds exactly when that count is at most 2^62. */
  lemma DoublingReaches(want: int)
    ensures (exists n: nat :: Doubled(n) >= want) <==> want <= TOP_SHIFT
  {
    TopShift();
    if want <= TOP_SHIFT {
      DoubledIs(62);
      assert Doubled(62) >= want;
    } else if n: nat :| Doubled(n) >= want {
      DoubledIs(n);
    }
  }

  /** One above that bound is an input on which the loop never ends. */
  lemma DoublingRunsForever(n: nat)
    ensures Doubled(n) < TOP_SHIFT + 1
  {
    DoublingReaches(TOP_SHIFT + 1);
  }

  /** The resolved shard count, or a doubling loop that never ends. */
  datatype ShardCount = Resolved(shards: nat) | Diverges

  /** The doubling loop; from 0 on it stands still, which is where it is given up. */
  method RoundUp(want: nat) returns (r: ShardCount, ghost k: nat)
    requires want >= 1
    ensures r.Diverges? <==> want > TOP_SHIFT
    ensures r.Resolved? ==> k <= 62 && r.shards == Pow2(k) && want <= r.shards < 2 * want
  {
    var shards := 1;
    k := 0;
    DoubledIs(0);
    while shards < want
      invariant k <= 64 && shards == Doubled(k)
      invariant k <= 62 ==> shards == Pow2(k) && shards < 2 * want
      invariant k > 62 ==> TOP_SHIFT < want && shards <= 0
      invariant k == 63 ==> shards != 0
      decreases 64 - k
    {
      if shards == 0 {
        return Diverges, k;
      }
      TopShift();
      DoubledIs(k);
      DoubledIs(k + 1);
      shards := ShiftLeft(shards);
      k := k + 1;
    }
    DoubledIs(k);
    r := Resolved(shards);
  }

  /**
   What a shard count must be, over the options alone. An explicit request is rounded up to a power of
   two, or cut to the largest one that the queue size holds. The automatic count is 1 for a queue below
   1024 slots, and otherwise the processor count rounded up, at most 32.
   */
  predicate Fits(shards: nat, taskQueueShards: int, taskQueueSize: int, maxprocs: nat) {
    if taskQueueShards > 0 then
      taskQueueShards <= shards < 2 * taskQueueShards || (shards < taskQueueShards && 2 * shards > taskQueueSize)
    else if taskQueueSize < 1024 || maxprocs == 0 then shards == 1
    else if maxprocs >= 32 then shards == 32
    else maxprocs <= shards < 2 * maxprocs
  }

  /** A power of two in [32, 64) is 32. */
  lemma OnlyPower32(k: nat)
    requires 32 <= Pow2(k) < 64
    ensures Pow2(k) == 32
  {
    assert Pow2(5) == 32 && Pow2(6) == 64;
    if k < 5 {
      Pow2Increases(k, 5);
    } else if k > 6 {
      Pow2Increases(6, k);
    }
  }

  /**
   Rounds the wanted count up to a power of two and halves it while it exceeds the queue size: the
   result is the smallest power of two that reaches the wanted count when that fits the queue size,
   and otherwise the largest power of two that fits.
   */
  method ResolveTaskQueueShards(taskQueueShards: int, taskQueueSize: int, maxprocs: nat) returns (r: ShardCount)
    ensures r.Diverges? <==> taskQueueShards > TOP_SHIFT
    ensures r.Diverges? <==> forall n: nat :: Doubled(n) < Wanted(taskQueueShards, taskQueueSize, maxprocs)
    ensures r.Resolved? ==> PowerOfTwo(r.shards) && r.shards <= TOP_SHIFT <= CURSOR_RANGE
    ensures r.Resolved? && taskQueueSize >= 1 ==> r.shards <= taskQueueSize
    ensures r.Resolved? && taskQueueSize < 1 ==> r.shards == 1
    ensures r.Resolved? ==> Fits(r.shards, taskQueueShards, taskQueueSize, maxprocs)
  {
    var want: nat := Wanted(taskQueueShards, taskQueueSize, maxprocs);
    ghost var k;
    r, k := RoundUp(want);
    DoublingReaches(want);
    if r.Diverges? {
      return;
    }
    var shards := r.shards;
    DoubledIs(k);
    if 32 <= shards < 64 {
      OnlyPower32(k);
    }
    while shards > taskQueueSize && shards > 1
      invariant shards == Pow2(k)
      invariant shards <= r.shards
      invariant shards < r.shards ==> 2 * shards > taskQueueSize
    {
      k := k - 1;
      shards := shards / 2;
    }
    r := Resolved(shards);
  }

  /** Rounded-up division of the queue size over the shards, at least one slot each. */
  function PerShardCap(taskQueueSize: int, shards: nat): (cap: nat)
    requires shards >= 1
    ensures cap >= 1
  {
    var c := (taskQueueSize + shards - 1) / shards;
    if c < 1 then 1 else c
  }

  /** The total capacity covers the configured size and overshoots it by less than the shard count. */
  lemma TotalCapacity(taskQueueSize: int, shards: nat)
    requires taskQueueSize >= 1 && shards >= 1
    ensures taskQueueSize <= shards * PerShardCap(taskQueueSize, shards) < taskQueueSize + shards
  {
    var a := taskQueueSize + shards - 1;
    var q, r := a / shards, a % shards;
    assert a == q * shards + r;
    MulAway(q, shards);
    assert q >= 1 && shards * q == q * shards;
  }
}
