/** The one contract behind the five idle containers. */
module IdleContract {
  import opened IdleSpec

  function Times(q: seq<Elem>): (r: seq<int>)
    ensures |r| == |q| && forall i :: 0 <= i < |r| ==> r[i] == q[i].at
  {
    seq(|q|, i requires 0 <= i < |q| => q[i].at)
  }

  // ---- RemoveExpired: the same survivors and the same count, whatever the container ----

  /** The filter of the ordered containers drops exactly what the heap's condition drops, though the two test expiry differently. */
  lemma {:induction false} KeepLivePurges(q: seq<Elem>, now: int, expiry: int)
    ensures Purged(multiset(q), multiset(KeepLive(q, now, expiry)), now, expiry)
  {
    if q != [] {
      KeepLivePurges(q[..|q| - 1], now, expiry);
      assert q == q[..|q| - 1] + [q[|q| - 1]];
    }
  }

  /** Containers with the same elements keep the same elements and report the same count. */
  lemma PurgeAgrees(q: seq<Elem>, r: seq<Elem>, r': seq<Elem>, now: int, expiry: int)
    requires multiset(q) == multiset(r) && Purged(multiset(r), multiset(r'), now, expiry)
    ensures multiset(r') == multiset(KeepLive(q, now, expiry))
    ensures |r| - |r'| == |q| - |KeepLive(q, now, expiry)|
  {
    KeepLivePurges(q, now, expiry);
    var k := KeepLive(q, now, expiry);
    forall e
      ensures multiset(r')[e] == multiset(k)[e]
    {
    }
    SameSize(q, r);
    SameSize(k, r');
  }

  lemma SameSize(q: seq<Elem>, r: seq<Elem>)
    requires multiset(q) == multiset(r)
    ensures |q| == |r|
  {
    assert |multiset(q)| == |q| && |multiset(r)| == |r|;
  }

  // ---- the ordered containers by time: whole runs of the heap and of the treap ----

  datatype Op = Add(e: Elem) | Pop | Purge(now: int, expiry: int)

  /** What a call shows of time: the popped element's date, or how many left. */
  datatype Seen = Nothing | Empty | Date(at: int) | Gone(count: int)

  /** A call of the treap's contract, which is a function of its sorted sequence. */
  function TreapAfter(q: seq<Elem>, op: Op): seq<Elem> {
    match op
    case Add(e) => InsertStable(q, e)
    case Pop => if q == [] then [] else q[1..]
    case Purge(now, expiry) => KeepLive(q, now, expiry)
  }

  function TreapSees(q: seq<Elem>, op: Op): Seen {
    match op
    case Add(e) => Nothing
    case Pop => if q == [] then Empty else Date(q[0].at)
    case Purge(now, expiry) => Gone(|q| - |KeepLive(q, now, expiry)|)
  }

  /** A call of the heap's contract, which leaves the array order and the choice among equal dates open. */
  ghost predicate HeapCall(r: seq<Elem>, op: Op, r': seq<Elem>, seen: Seen) {
    match op
    case Add(e) => multiset(r') == multiset(r) + multiset{e} && seen == Nothing
    case Pop =>
      if r == [] then r' == [] && seen == Empty
      else (forall e :: e in r ==> r[0].at <= e.at) && multiset(r') == multiset(r) - multiset{r[0]} && seen == Date(r[0].at)
    case Purge(now, expiry) => Purged(multiset(r), multiset(r'), now, expiry) && seen == Gone(|r| - |r'|)
  }

  /** states[i + 1] and seen[i] are what the i-th call leaves and shows. */
  ghost predicate HeapRun(ops: seq<Op>, states: seq<seq<Elem>>, seen: seq<Seen>) {
    |states| == |ops| + 1 && |seen| == |ops| && states[0] == []
    && forall i :: 0 <= i < |ops| ==> HeapCall(states[i], ops[i], states[i + 1], seen[i])
  }

  function TreapRun(ops: seq<Op>): seq<Elem> {
    if ops == [] then [] else TreapAfter(TreapRun(ops[..|ops| - 1]), ops[|ops| - 1])
  }

  ghost predicate SameTimes(q: seq<Elem>, r: seq<Elem>) {
    multiset(Times(q)) == multiset(Times(r))
  }

  lemma TimesAppend(q: seq<Elem>, e: Elem)
    ensures Times(q + [e]) == Times(q) + [e.at]
  {
  }

  /** Rearranging elements rearranges their dates. */
  lemma {:induction false} SameElementsSameTimes(q: seq<Elem>, r: seq<Elem>)
    requires multiset(q) == multiset(r)
    ensures SameTimes(q, r)
    decreases |q|
  {
    SameSize(q, r);
    if q == [] {
      assert Times(q) == Times(r);
    } else {
      var e := q[|q| - 1];
      assert e in multiset(r);
      var k :| 0 <= k < |r| && r[k] == e;
      Without(q, |q| - 1);
      Without(r, k);
      SameElementsSameTimes(q[..|q| - 1] + q[|q|..], r[..k] + r[k + 1..]);
    }
  }

  lemma Without(r: seq<Elem>, k: nat)
    requires k < |r|
    ensures multiset(r[..k] + r[k + 1..]) == multiset(r) - multiset{r[k]} && |r[..k] + r[k + 1..]| == |r| - 1
    ensures multiset(Times(r)) == multiset(Times(r[..k] + r[k + 1..])) + multiset{r[k].at}
  {
    assert r == r[..k] + [r[k]] + r[k + 1..];
    assert Times(r) == Times(r[..k]) + [r[k].at] + Times(r[k + 1..]);
    assert Times(r[..k] + r[k + 1..]) == Times(r[..k]) + Times(r[k + 1..]);
  }

  /** Which dates survive depends on the dates alone. */
  lemma {:induction false} PurgeTimes(q: seq<Elem>, now: int, expiry: int, t: int)
    ensures multiset(Times(KeepLive(q, now, expiry)))[t] == if t > now - expiry then multiset(Times(q))[t] else 0
  {
    if q != [] {
      var q', e := q[..|q| - 1], q[|q| - 1];
      assert q == q' + [e];
      PurgeTimes(q', now, expiry, t);
      TimesAppend(q', e);
      var k := KeepLive(q', now, expiry);
      TimesAppend(k, e);
      assert KeepLive(q, now, expiry) == if ExpiredByCutoff(e, now, expiry) then k else k + [e];
    }
  }

  lemma PurgeSameTimes(q: seq<Elem>, r: seq<Elem>, r': seq<Elem>, now: int, expiry: int)
    requires SameTimes(q, r) && Purged(multiset(r), multiset(r'), now, expiry)
    ensures SameTimes(KeepLive(q, now, expiry), r')
    ensures |q| - |KeepLive(q, now, expiry)| == |r| - |r'|
  {
    PurgeAgrees(r, r, r', now, expiry);
    SameElementsSameTimes(KeepLive(r, now, expiry), r');
    forall t
      ensures multiset(Times(KeepLive(q, now, expiry)))[t] == multiset(Times(KeepLive(r, now, expiry)))[t]
    {
      PurgeTimes(q, now, expiry, t);
      PurgeTimes(r, now, expiry, t);
    }
    SameLength(q, r);
    SameLength(KeepLive(q, now, expiry), r');
  }

  lemma SameLength(q: seq<Elem>, r: seq<Elem>)
    requires SameTimes(q, r)
    ensures |q| == |r|
  {
    assert |multiset(Times(q))| == |q| && |multiset(Times(r))| == |r|;
  }

  lemma AddSameTimes(q: seq<Elem>, r: seq<Elem>, r': seq<Elem>, e: Elem)
    requires SameTimes(q, r) && multiset(r') == multiset(r) + multiset{e}
    ensures SameTimes(InsertStable(q, e), r')
  {
    var k := RankAfter(q, e.at);
    assert q == q[..k] + q[k..];
    SameElementsSameTimes(InsertStable(q, e), q + [e]);
    SameElementsSameTimes(r', r + [e]);
    TimesAppend(q, e);
    TimesAppend(r, e);
  }

  lemma PopSameTimes(q: seq<Elem>, r: seq<Elem>, r': seq<Elem>)
    requires SameTimes(q, r) && SortedByTime(q) && r != [] && q != []
    requires (forall e :: e in r ==> r[0].at <= e.at) && multiset(r') == multiset(r) - multiset{r[0]}
    ensures q[0].at == r[0].at && SameTimes(q[1..], r')
  {
    FirstDates(q, r);
    var t := r[0].at;
    RestOfTimes(r, r', r[0]);
    assert q == [q[0]] + q[1..];
    RestOfTimes(q, q[1..], q[0]);
    assert multiset(Times(q[1..])) == multiset(Times(q)) - multiset{t};
  }

  lemma RestOfTimes(r: seq<Elem>, r': seq<Elem>, e: Elem)
    requires e in r && multiset(r') == multiset(r) - multiset{e}
    ensures multiset(Times(r')) == multiset(Times(r)) - multiset{e.at}
  {
    assert multiset(r' + [e]) == multiset(r);
    SameElementsSameTimes(r, r' + [e]);
    TimesAppend(r', e);
  }

  lemma FirstDates(q: seq<Elem>, r: seq<Elem>)
    requires SameTimes(q, r) && SortedByTime(q) && r != [] && q != []
    requires forall e :: e in r ==> r[0].at <= e.at
    ensures q[0].at == r[0].at
  {
    assert Times(r)[0] in multiset(Times(r));
    var i :| 0 <= i < |q| && Times(q)[i] == r[0].at;
    assert Times(q)[0] in multiset(Times(q));
    var j :| 0 <= j < |r| && Times(r)[j] == q[0].at;
    assert r[j] in r;
    assert i > 0 ==> q[0].at <= q[i].at;
  }

  lemma KeepsSorted(q: seq<Elem>, op: Op)
    requires SortedByTime(q)
    ensures SortedByTime(TreapAfter(q, op))
  {
    match op
    case Add(e) => InsertSorted(q, e);
    case Pop =>
    case Purge(now, expiry) => KeepLiveSorted(q, now, expiry);
  }

  lemma {:induction false} InsertSorted(q: seq<Elem>, e: Elem)
    requires SortedByTime(q)
    ensures SortedByTime(InsertStable(q, e))
  {
    RankSplits(q, e.at);
  }

  lemma {:induction false} RankSplits(q: seq<Elem>, k: int)
    requires SortedByTime(q)
    ensures forall i :: 0 <= i < RankAfter(q, k) ==> q[i].at <= k
    ensures forall i :: RankAfter(q, k) <= i < |q| ==> q[i].at > k
  {
    if q != [] && q[0].at <= k {
      RankSplits(q[1..], k);
      assert forall i :: 1 <= i < |q| ==> q[i] == q[1..][i - 1];
    }
  }

  lemma {:induction false} KeepLiveSorted(q: seq<Elem>, now: int, expiry: int)
    requires SortedByTime(q)
    ensures SortedByTime(KeepLive(q, now, expiry)) && forall e :: e in KeepLive(q, now, expiry) ==> e in q
  {
    if q != [] {
      KeepLiveSorted(q[..|q| - 1], now, expiry);
      var k := KeepLive(q[..|q| - 1], now, expiry);
      forall i | 0 <= i < |k|
        ensures k[i].at <= q[|q| - 1].at
      {
        assert k[i] in q[..|q| - 1];
      }
    }
  }

  lemma CallAgrees(q: seq<Elem>, r: seq<Elem>, op: Op, r': seq<Elem>, seen: Seen)
    requires SameTimes(q, r) && SortedByTime(q) && HeapCall(r, op, r', seen)
    ensures seen == TreapSees(q, op) && SameTimes(TreapAfter(q, op), r')
  {
    SameLength(q, r);
    match op
    case Add(e) => AddSameTimes(q, r, r', e);
    case Pop =>
      if r != [] {
        PopSameTimes(q, r, r');
      }
    case Purge(now, expiry) => PurgeSameTimes(q, r, r', now, expiry);
  }

  /** Over any calls, from empty, however the heap breaks ties: both hold the same dates and show the same dates and counts. */
  lemma {:induction false} HeapAndTreapAgree(ops: seq<Op>, states: seq<seq<Elem>>, seen: seq<Seen>)
    requires HeapRun(ops, states, seen)
    ensures SortedByTime(TreapRun(ops)) && SameTimes(TreapRun(ops), states[|ops|])
    ensures forall i :: 0 <= i < |ops| ==> seen[i] == TreapSees(TreapRun(ops[..i]), ops[i])
  {
    if ops != [] {
      var n := |ops| - 1;
      HeapRunPrefix(ops, states, seen);
      HeapAndTreapAgree(ops[..n], states[..n + 1], seen[..n]);
      CallAgrees(TreapRun(ops[..n]), states[n], ops[n], states[n + 1], seen[n]);
      KeepsSorted(TreapRun(ops[..n]), ops[n]);
      forall i | 0 <= i < n
        ensures ops[..n][..i] == ops[..i]
      {
      }
    }
  }

  lemma HeapRunPrefix(ops: seq<Op>, states: seq<seq<Elem>>, seen: seq<Seen>)
    requires HeapRun(ops, states, seen) && ops != []
    ensures HeapRun(ops[..|ops| - 1], states[..|ops|], seen[..|ops| - 1])
    ensures HeapCall(states[|ops| - 1], ops[|ops| - 1], states[|ops|], seen[|ops| - 1])
  {
    assert forall i :: 0 <= i < |ops| - 1 ==> HeapCall(states[i], ops[i], states[i + 1], seen[i]);
  }
}
