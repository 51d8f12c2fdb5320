/** The sliding-window histogram whose medians feed the scaler. */
module Histogram {

  /** A bucket of sample values; Open has no upper end. */
  datatype Bucket = Closed(low: int, high: int) | Open(low: int)

  predicate Holds(b: Bucket, v: int) {
    b.low <= v && (b.Closed? ==> v <= b.high)
  }

  /** What median returns for a bucket: the middle of a closed one, the bottom of an open one. */
  function Midpoint(b: Bucket): real {
    if b.Closed? then (b.low + b.high) as real / 2.0 else b.low as real
  }

  const RATE_BUCKETS: seq<Bucket> := [
    Closed(0, 0), Closed(1, 5), Closed(6, 20), Closed(21, 100),
    Closed(101, 500), Closed(501, 2000), Closed(2001, 10000), Open(10001)]

  const EXIT_BUCKETS: seq<Bucket> := [
    Closed(0, 0), Closed(1, 2), Closed(3, 5), Closed(6, 10),
    Closed(11, 20), Closed(21, 50), Closed(51, 100), Open(101)]

  /** The buckets cut the non-negative numbers into {0} and consecutive ranges, the last one open. */
  ghost predicate Tiles(bs: seq<Bucket>) {
    |bs| > 1 && bs[0] == Closed(0, 0) && bs[|bs| - 1].Open?
    && forall i :: 0 <= i < |bs| - 1 ==> Adjoin(bs, i)
  }

  predicate Adjoin(bs: seq<Bucket>, i: nat)
    requires i < |bs| - 1
  {
    bs[i].Closed? && bs[i].low <= bs[i].high && bs[i + 1].low == bs[i].high + 1
  }

  lemma DefaultsTile()
    ensures Tiles(RATE_BUCKETS) && Tiles(EXIT_BUCKETS)
  {
  }

  /** The default tables, value by value. */
  lemma DefaultBucketOf(v: int)
    requires v >= 0
    ensures IndexOf(RATE_BUCKETS, v)
      == if v == 0 then 0 else if v <= 5 then 1 else if v <= 20 then 2 else if v <= 100 then 3
         else if v <= 500 then 4 else if v <= 2000 then 5 else if v <= 10000 then 6 else 7
    ensures IndexOf(EXIT_BUCKETS, v)
      == if v == 0 then 0 else if v <= 2 then 1 else if v <= 5 then 2 else if v <= 10 then 3
         else if v <= 20 then 4 else if v <= 50 then 5 else if v <= 100 then 6 else 7
  {
    DefaultsTile();
    TilesOrder(RATE_BUCKETS, v, v);
    TilesOrder(EXIT_BUCKETS, v, v);
  }

  /** The first bucket from i on that holds v, and the last bucket when none does. */
  function IndexFrom(bs: seq<Bucket>, v: int, i: nat): (r: nat)
    requires i <= |bs| && 0 < |bs|
    ensures r < |bs|
    ensures forall k :: i <= k < r ==> !Holds(bs[k], v)
    ensures !Holds(bs[r], v) ==> r == |bs| - 1 && forall k :: i <= k < |bs| ==> !Holds(bs[k], v)
    decreases |bs| - i
  {
    if i == |bs| then |bs| - 1 else if Holds(bs[i], v) then i else IndexFrom(bs, v, i + 1)
  }

  function IndexOf(bs: seq<Bucket>, v: int): nat
    requires 0 < |bs|
  {
    IndexFrom(bs, v, 0)
  }

  function Indices(bs: seq<Bucket>, w: seq<int>): (r: seq<int>)
    requires 0 < |bs|
    ensures |r| == |w| && forall k :: 0 <= k < |r| ==> 0 <= r[k] == IndexOf(bs, w[k]) < |bs|
  {
    seq(|w|, i requires 0 <= i < |w| => IndexOf(bs, w[i]))
  }

  /** The samples still tracked: the last n of those added. */
  function Window(adds: seq<int>, n: nat): seq<int> {
    if |adds| <= n then adds else adds[|adds| - n..]
  }

  /** Once n samples are tracked, a new one pushes the oldest out. */
  lemma WindowStep(bs: seq<Bucket>, adds: seq<int>, v: int, n: nat)
    requires 0 < n && 0 < |bs|
    ensures |Window(adds, n)| == if |adds| < n then |adds| else n
    ensures Indices(bs, Window(adds + [v], n))
      == (if |adds| < n then Indices(bs, Window(adds, n)) else Indices(bs, Window(adds, n))[1..]) + [IndexOf(bs, v)]
  {
    var w := Window(adds, n);
    if |adds| < n {
      assert Indices(bs, adds + [v]) == Indices(bs, w) + [IndexOf(bs, v)];
    } else {
      assert Window(adds + [v], n) == w[1..] + [v];
      assert Indices(bs, w[1..] + [v]) == Indices(bs, w)[1..] + [IndexOf(bs, v)];
    }
  }

  /** The slots of the ring, oldest first; the next write goes to pos. */
  function RingOf(s: seq<int>, pos: nat, filled: bool): seq<int>
    requires pos < |s|
  {
    if filled then s[pos..] + s[..pos] else s[..pos]
  }

  /** The samples that stay when the next one is written: all but the one at pos once the window is full. */
  function StayingOf(s: seq<int>, pos: nat, filled: bool): seq<int>
    requires pos < |s|
  {
    if filled then s[pos + 1..] + s[..pos] else s[..pos]
  }

  lemma RingHead(s: seq<int>, pos: nat, filled: bool)
    requires pos < |s|
    ensures StayingOf(s, pos, filled) == if filled then RingOf(s, pos, filled)[1..] else RingOf(s, pos, filled)
    ensures filled ==> RingOf(s, pos, filled)[0] == s[pos]
  {
  }

  lemma RingWrite(s: seq<int>, pos: nat, filled: bool, x: int)
    requires pos < |s|
    ensures var last := pos + 1 == |s|;
      RingOf(s[pos := x], if last then 0 else pos + 1, filled || last) == StayingOf(s, pos, filled) + [x]
  {
    var t := s[pos := x];
    if pos + 1 < |s| {
      assert t[..pos + 1] == s[..pos] + [x];
      assert t[pos + 1..] == s[pos + 1..];
    } else {
      assert t == s[..pos] + [x];
      assert s[pos + 1..] == [];
    }
  }

  // ---- ranks ----

  ghost predicate Ascending(s: seq<int>) {
    forall i, j :: 0 <= i < j < |s| ==> s[i] <= s[j]
  }

  ghost predicate NonNegative(s: seq<int>) {
    forall i :: 0 <= i < |s| ==> 0 <= s[i]
  }

  function Insert(s: seq<int>, x: int): (r: seq<int>)
    ensures |r| == |s| + 1
  {
    if s == [] || s[|s| - 1] <= x then s + [x] else Insert(s[..|s| - 1], x) + [s[|s| - 1]]
  }

  lemma {:induction false} InsertMultiset(s: seq<int>, x: int)
    ensures multiset(Insert(s, x)) == multiset(s) + multiset{x}
  {
    if s != [] && s[|s| - 1] > x {
      InsertMultiset(s[..|s| - 1], x);
      assert s == s[..|s| - 1] + [s[|s| - 1]];
    }
  }

  lemma {:induction false} InsertAscending(s: seq<int>, x: int)
    requires Ascending(s)
    ensures Ascending(Insert(s, x))
    ensures Insert(s, x)[|s|] == if s == [] || s[|s| - 1] <= x then x else s[|s| - 1]
  {
    if s != [] && s[|s| - 1] > x {
      InsertAscending(s[..|s| - 1], x);
    }
  }

  /** The samples in ascending order. */
  function Sorted(w: seq<int>): (s: seq<int>)
    ensures multiset(s) == multiset(w) && |s| == |w|
    ensures Ascending(s)
  {
    if w == [] then []
    else
      var v, x := w[..|w| - 1], w[|w| - 1];
      assert w == v + [x];
      InsertMultiset(Sorted(v), x);
      InsertAscending(Sorted(v), x);
      Insert(Sorted(v), x)
  }

  lemma SortedNonNegative(w: seq<int>)
    requires NonNegative(w)
    ensures NonNegative(Sorted(w))
  {
    forall i | 0 <= i < |Sorted(w)|
      ensures 0 <= Sorted(w)[i]
    {
      assert Sorted(w)[i] in multiset(Sorted(w)) && Sorted(w)[i] in w;
    }
  }

  /** The total of the counts of the buckets before n. */
  function Cumulative(m: multiset<int>, n: nat): nat {
    if n == 0 then 0 else Cumulative(m, n - 1) + m[n - 1]
  }

  lemma {:induction false} CumulativeAppend(m: multiset<int>, x: nat, n: nat)
    ensures Cumulative(m + multiset{x}, n) == Cumulative(m, n) + if x < n then 1 else 0
  {
    if n > 0 {
      CumulativeAppend(m, x, n - 1);
    }
  }

  /** In an ascending sequence, the rank-k element is the first value whose cumulative count exceeds k. */
  lemma {:induction false} RankByCounts(t: seq<int>, k: nat, n: nat)
    requires Ascending(t) && k < |t| && NonNegative(t)
    ensures Cumulative(multiset(t), n) <= |t|
    ensures Cumulative(multiset(t), n) > k <==> t[k] < n
  {
    var s, x := t[..|t| - 1], t[|t| - 1];
    CountsOfLast(t, n);
    if s == [] {
      EmptyCounts(n);
    } else if k < |s| {
      RankByCounts(s, k, n);
    } else {
      RankByCounts(s, |s| - 1, n);
    }
  }

  lemma CountsOfLast(t: seq<int>, n: nat)
    requires t != [] && NonNegative(t)
    ensures Cumulative(multiset(t), n) == Cumulative(multiset(t[..|t| - 1]), n) + if t[|t| - 1] < n then 1 else 0
  {
    assert t == t[..|t| - 1] + [t[|t| - 1]];
    assert 0 <= t[|t| - 1];
    CumulativeAppend(multiset(t[..|t| - 1]), t[|t| - 1], n);
  }

  lemma {:induction false} EmptyCounts(n: nat)
    ensures Cumulative(multiset([]), n) == 0
  {
    if n > 0 {
      EmptyCounts(n - 1);
    }
  }

  /** c holds the multiplicity of every bucket in r. */
  ghost predicate Counts(c: seq<int>, r: seq<int>) {
    forall b :: 0 <= b < |c| ==> c[b] == multiset(r)[b]
  }

  lemma CountsDropFirst(c: seq<int>, r: seq<int>)
    requires Counts(c, r) && r != [] && 0 <= r[0] < |c|
    ensures Counts(c[r[0] := c[r[0]] - 1], r[1..])
  {
    assert r == [r[0]] + r[1..];
  }

  lemma CountsAppend(c: seq<int>, r: seq<int>, x: nat)
    requires Counts(c, r) && x < |c|
    ensures Counts(c[x := c[x] + 1], r + [x])
  {
  }

  lemma {:induction false} InsertIndices(bs: seq<Bucket>, s: seq<int>, x: int)
    requires 0 < |bs|
    ensures multiset(Indices(bs, Insert(s, x))) == multiset(Indices(bs, s)) + multiset{IndexOf(bs, x)}
  {
    if s == [] || s[|s| - 1] <= x {
      assert Indices(bs, Insert(s, x)) == Indices(bs, s) + [IndexOf(bs, x)];
    } else {
      var v, y := s[..|s| - 1], s[|s| - 1];
      InsertIndices(bs, v, x);
      assert Indices(bs, s) == Indices(bs, v) + [IndexOf(bs, y)];
      assert Indices(bs, Insert(s, x)) == Indices(bs, Insert(v, x)) + [IndexOf(bs, y)];
    }
  }

  lemma IndicesAppend(bs: seq<Bucket>, v: seq<int>, x: int)
    requires 0 < |bs|
    ensures Indices(bs, v + [x]) == Indices(bs, v) + [IndexOf(bs, x)]
  {
  }

  lemma {:induction false} SortedIndices(bs: seq<Bucket>, w: seq<int>)
    requires 0 < |bs|
    ensures multiset(Indices(bs, Sorted(w))) == multiset(Indices(bs, w))
  {
    if w != [] {
      var v, x := w[..|w| - 1], w[|w| - 1];
      SortedIndices(bs, v);
      InsertIndices(bs, Sorted(v), x);
      assert w == v + [x];
      IndicesAppend(bs, v, x);
    }
  }

  // ---- tiling buckets ----

  lemma {:induction false} Lows(bs: seq<Bucket>, i: nat, j: nat)
    requires Tiles(bs) && i < j < |bs|
    ensures bs[i].Closed? && bs[i].high < bs[j].low
  {
    assert Adjoin(bs, j - 1);
    if j > i + 1 {
      Lows(bs, i, j - 1);
    }
  }

  lemma {:induction false} SomeHolds(bs: seq<Bucket>, v: int, i: nat)
    requires Tiles(bs) && i < |bs| && bs[i].low <= v
    ensures exists k :: i <= k < |bs| && Holds(bs[k], v)
    decreases |bs| - i
  {
    if !Holds(bs[i], v) {
      assert bs[i].Closed? && i + 1 < |bs| && Adjoin(bs, i);
      SomeHolds(bs, v, i + 1);
    } else {
      assert i <= i < |bs| && Holds(bs[i], v);
    }
  }

  /** Every non-negative sample lies in the one bucket it is counted in, and larger samples never in an earlier one. */
  lemma TilesOrder(bs: seq<Bucket>, u: int, v: int)
    requires Tiles(bs) && 0 <= u <= v
    ensures Holds(bs[IndexOf(bs, u)], u) && Holds(bs[IndexOf(bs, v)], v)
    ensures forall k :: 0 <= k < |bs| && Holds(bs[k], u) ==> k == IndexOf(bs, u)
    ensures IndexOf(bs, u) <= IndexOf(bs, v)
  {
    SomeHolds(bs, u, 0);
    SomeHolds(bs, v, 0);
    var i, j := IndexOf(bs, u), IndexOf(bs, v);
    forall k | 0 <= k < |bs| && Holds(bs[k], u)
      ensures k == i
    {
      if i < k {
        Lows(bs, i, k);
      }
    }
    if j < i {
      Lows(bs, j, i);
    }
  }

  /** m is the middle of a closed bucket, the bottom of an open one. */
  predicate Middle(b: Bucket, m: real) {
    if b.Closed? then 2.0 * m == b.low as real + b.high as real else m == b.low as real
  }

  /** What median promises for the sample x of rank total / 2. */
  ghost predicate Approximates(bs: seq<Bucket>, median: real, x: int)
    requires 0 < |bs|
  {
    var b := bs[IndexOf(bs, x)];
    Middle(b, median)
    && Holds(b, x)
    && (b.Closed? ==> -((b.high - b.low) as real / 2.0) <= median - x as real <= (b.high - b.low) as real / 2.0)
    && (b.Open? ==> median == b.low as real <= x as real)
    && (median == 0.0 <==> x == 0)
  }

  lemma BucketApproximates(bs: seq<Bucket>, x: int)
    requires Tiles(bs) && 0 <= x
    ensures Approximates(bs, Midpoint(bs[IndexOf(bs, x)]), x)
  {
    var i := IndexOf(bs, x);
    TilesOrder(bs, x, x);
    if i > 0 {
      Lows(bs, 0, i);
    }
  }

  /** For non-negative samples the rank-k bucket index is the bucket of the rank-k sample. */
  lemma RankBucket(bs: seq<Bucket>, w: seq<int>, k: nat)
    requires Tiles(bs) && k < |w| && NonNegative(w)
    ensures Sorted(Indices(bs, w))[k] == IndexOf(bs, Sorted(w)[k]) && 0 <= Sorted(w)[k]
  {
    var s, t, u := Sorted(w), Indices(bs, Sorted(w)), Sorted(Indices(bs, w));
    SortedNonNegative(w);
    forall i, j | 0 <= i < j < |t|
      ensures t[i] <= t[j]
    {
      TilesOrder(bs, s[i], s[j]);
    }
    SortedIndices(bs, w);
    SortedNonNegative(Indices(bs, w));
    SameRank(t, u, k);
  }

  /** Ascending sequences of the same elements are equal. */
  lemma SameRank(t: seq<int>, u: seq<int>, k: nat)
    requires Ascending(t) && Ascending(u) && NonNegative(t) && NonNegative(u)
    requires multiset(t) == multiset(u) && k < |t| == |u|
    ensures t[k] == u[k]
  {
    RankByCounts(t, k, t[k]);
    RankByCounts(u, k, t[k]);
    RankByCounts(t, k, t[k] + 1);
    RankByCounts(u, k, t[k] + 1);
  }

  /** What median returns for the tracked samples w. */
  ghost predicate IsMedian(bs: seq<Bucket>, w: seq<int>, m: real)
    requires 0 < |bs|
  {
    if w == [] then m == 0.0
    else
      // for any buckets, the bucket of rank total / 2 among the samples' bucket indices
      var i := Sorted(Indices(bs, w))[|w| / 2];
      0 <= i < |bs| && Middle(bs[i], m)
      // for tiling buckets and non-negative samples, the bucket of the sample of rank total / 2
      && (Tiles(bs) && NonNegative(w) ==> Approximates(bs, m, Sorted(w)[|w| / 2]))
  }

  lemma FoundRank(bs: seq<Bucket>, w: seq<int>, i: nat)
    requires w != [] && i < |bs|
    requires Cumulative(multiset(Indices(bs, w)), i) <= |w| / 2 < Cumulative(multiset(Indices(bs, w)), i + 1)
    ensures IsMedian(bs, w, Midpoint(bs[i]))
  {
    var k := |w| / 2;
    FoundIndex(bs, w, k, i);
    if Tiles(bs) && NonNegative(w) {
      RankBucket(bs, w, k);
      BucketApproximates(bs, Sorted(w)[k]);
    }
  }

  lemma FoundIndex(bs: seq<Bucket>, w: seq<int>, k: nat, i: nat)
    requires k < |w| && i < |bs|
    requires Cumulative(multiset(Indices(bs, w)), i) <= k < Cumulative(multiset(Indices(bs, w)), i + 1)
    ensures Sorted(Indices(bs, w))[k] == i
  {
    var v := Indices(bs, w);
    var t := Sorted(v);
    assert NonNegative(v);
    SortedNonNegative(v);
    RankByCounts(t, k, i);
    RankByCounts(t, k, i + 1);
  }

  lemma CountsAddUp(bs: seq<Bucket>, w: seq<int>)
    requires w != [] && 0 < |bs|
    ensures Cumulative(multiset(Indices(bs, w)), |bs|) == |w|
  {
    var t := Sorted(Indices(bs, w));
    SortedNonNegative(Indices(bs, w));
    RankByCounts(t, |w| - 1, |bs|);
    assert t[|w| - 1] in multiset(t) && t[|w| - 1] in Indices(bs, w);
  }

  class Histogram {
    const buckets: seq<Bucket>
    const counts: array<int>
    const samples: array<int>
    var total: int
    var pos: nat
    var filled: bool
    ghost var adds: seq<int>  // every sample ever added

    /** The tracked bucket indices, oldest first. */
    ghost function Ring(): seq<int>
      reads this, samples
      requires pos < samples.Length
    {
      RingOf(samples[..], pos, filled)
    }

    ghost function Tracked(): seq<int>
      reads this
    {
      Window(adds, samples.Length)
    }

    /** The counts are the multiplicities of the tracked samples. */
    ghost predicate Valid()
      reads this, counts, samples
    {
      0 < |buckets| == counts.Length && pos < samples.Length && counts != samples
      && (filled <==> samples.Length <= |adds|) && (!filled ==> pos == |adds|)
      && Ring() == Indices(buckets, Tracked()) && Counted(Ring())
    }

    constructor (buckets: seq<Bucket>, windowSize: nat)
      requires 0 < |buckets| && 0 < windowSize
      ensures Valid() && adds == [] && this.buckets == buckets && samples.Length == windowSize
      ensures fresh(counts) && fresh(samples)
    {
      this.buckets := buckets;
      counts := new int[|buckets|](i => 0);
      samples := new int[windowSize](i => 0);
      total, pos, filled := 0, 0, false;
      adds := [];
    }

    method BucketIndex(value: int) returns (idx: nat)
      requires 0 < |buckets|
      ensures idx == IndexOf(buckets, value)
    {
      for i := 0 to |buckets|
        invariant IndexOf(buckets, value) == IndexFrom(buckets, value, i)
      {
        if buckets[i].low <= value && (buckets[i].Open? || value <= buckets[i].high) {
          return i;
        }
      }
      return |buckets| - 1;
    }

    ghost function Staying(): seq<int>
      reads this, samples
      requires pos < samples.Length
    {
      StayingOf(samples[..], pos, filled)
    }

    ghost predicate Counted(r: seq<int>)
      reads this, counts
    {
      total == |r| && Counts(counts[..], r)
    }

    /** Overwriting the oldest sample: its bucket loses one. */
    method Evict()
      requires pos < samples.Length && Counted(Ring()) && counts != samples
      requires filled ==> 0 <= samples[pos] < counts.Length
      modifies this`total, counts
      ensures Counted(Staying()) && Staying() == if filled then Ring()[1..] else Ring()
    {
      RingHead(samples[..], pos, filled);
      if filled {
        var oldIdx := samples[pos];
        ghost var c, w := counts[..], samples[..];
        CountsDropFirst(c, Ring());
        counts[oldIdx] := counts[oldIdx] - 1;
        assert counts[..] == c[oldIdx := c[oldIdx] - 1] && samples[..] == w;
        total := total - 1;
      }
    }

    /** The new sample's bucket gains one. */
    method Credit(idx: nat, ghost r: seq<int>)
      requires Counted(r) && idx < counts.Length
      modifies this`total, counts
      ensures Counted(r + [idx])
    {
      ghost var c := counts[..];
      CountsAppend(c, r, idx);
      counts[idx] := counts[idx] + 1;
      assert counts[..] == c[idx := c[idx] + 1];
      total := total + 1;
    }

    /** Writes the new sample at pos and moves on, around the end. */
    method Record(idx: nat)
      requires pos < samples.Length && Counted(Staying()) && idx < counts.Length && counts != samples
      modifies this`total, this`pos, this`filled, counts, samples
      ensures pos < samples.Length && Ring() == old(Staying()) + [idx] && Counted(Ring())
      ensures filled == (old(filled) || old(pos) + 1 == samples.Length)
      ensures pos == if old(pos) + 1 == samples.Length then 0 else old(pos) + 1
    {
      ghost var r, s := Staying(), samples[..];
      RingWrite(s, pos, filled, idx);
      samples[pos] := idx;
      assert samples[..] == s[pos := idx];
      Credit(idx, r);
      pos := pos + 1;
      if pos >= samples.Length {
        pos := 0;
        filled := true;
      }
    }

    method Replace(idx: nat)
      requires pos < samples.Length && Counted(Ring()) && idx < counts.Length && counts != samples
      requires filled ==> 0 <= Ring()[0] < counts.Length
      modifies this`total, this`pos, this`filled, counts, samples
      ensures pos < samples.Length && Counted(Ring())
      ensures Ring() == (if old(filled) then old(Ring())[1..] else old(Ring())) + [idx]
      ensures filled == (old(filled) || old(pos) + 1 == samples.Length)
      ensures pos == if old(pos) + 1 == samples.Length then 0 else old(pos) + 1
    {
      RingHead(samples[..], pos, filled);
      Evict();
      Record(idx);
    }

    /** Once the window is full, the sample at pos is the oldest and leaves. */
    method Add(value: int)
      requires Valid()
      modifies this, counts, samples
      ensures Valid() && adds == old(adds) + [value]
    {
      var idx := BucketIndex(value);
      WindowStep(buckets, adds, value, samples.Length);
      Replace(idx);
      adds := adds + [value];
    }

    /** The scan over the counts finds the bucket of rank total / 2. */
    method Median() returns (m: real)
      requires Valid()
      ensures IsMedian(buckets, Tracked(), m)
    {
      if total == 0 {
        return 0.0;
      }
      var mid := total / 2;
      var cum := 0;
      for i := 0 to counts.Length
        invariant cum == Cumulative(multiset(Ring()), i) <= mid
      {
        cum := cum + counts[i];
        if cum > mid {
          FoundRank(buckets, Tracked(), i);
          return Midpoint(buckets[i]);
        }
      }
      CountsAddUp(buckets, Tracked());
      return 0.0;
    }
  }
}
