/** The treap's split, merge and removal of the minimum, on trees that carry their nodes. */
module TreapSpec {
  import opened IdleSpec

  datatype Tree<R> = Leaf | Node(ref: R, value: Elem, priority: int, left: Tree<R>, right: Tree<R>)

  function InOrder<R>(t: Tree<R>): seq<Elem> {
    match t
    case Leaf => []
    case Node(_, v, _, l, r) => InOrder(l) + [v] + InOrder(r)
  }

  function Refs<R>(t: Tree<R>): set<R> {
    match t
    case Leaf => {}
    case Node(n, _, _, l, r) => {n} + Refs(l) + Refs(r)
  }

  /** Every node occurs once. */
  predicate Separate<R(==)>(t: Tree<R>) {
    match t
    case Leaf => true
    case Node(n, _, _, l, r) => n !in Refs(l) && n !in Refs(r) && Refs(l) !! Refs(r) && Separate(l) && Separate(r)
  }

  predicate AtLeast<R>(t: Tree<R>, p: int) {
    t.Leaf? || t.priority >= p
  }

  predicate HeapOrdered<R>(t: Tree<R>) {
    match t
    case Leaf => true
    case Node(_, _, p, l, r) => AtLeast(l, p) && AtLeast(r, p) && HeapOrdered(l) && HeapOrdered(r)
  }

  function Split<R>(t: Tree<R>, k: int): (Tree<R>, Tree<R>) {
    match t
    case Leaf => (Leaf, Leaf)
    case Node(_, v, _, l, r) =>
      if v.at > k then
        var (a, b) := Split(l, k);
        (a, t.(left := b))
      else
        var (a, b) := Split(r, k);
        (t.(right := a), b)
  }

  function Size<R>(t: Tree<R>): nat {
    match t
    case Leaf => 0
    case Node(_, _, _, l, r) => Size(l) + 1 + Size(r)
  }

  function Merge<R>(a: Tree<R>, b: Tree<R>): Tree<R>
    decreases Size(a) + Size(b)
  {
    if a.Leaf? then b
    else if b.Leaf? then a
    else if a.priority < b.priority then a.(right := Merge(a.right, b))
    else b.(left := Merge(a, b.left))
  }

  function RemoveMin<R>(t: Tree<R>): Tree<R>
    requires t.Node?
  {
    if t.left.Leaf? then t.right else t.(left := RemoveMin(t.left))
  }

  // ---- nodes are neither lost nor shared ----

  lemma {:induction false} SplitRefs<R>(t: Tree<R>, k: int)
    requires Separate(t)
    ensures var (a, b) := Split(t, k); Separate(a) && Separate(b) && Refs(a) !! Refs(b) && Refs(a) + Refs(b) == Refs(t)
  {
    if t.Node? {
      SplitRefs(if t.value.at > k then t.left else t.right, k);
    }
  }

  lemma {:induction false} MergeRefs<R>(a: Tree<R>, b: Tree<R>)
    requires Separate(a) && Separate(b) && Refs(a) !! Refs(b)
    ensures Separate(Merge(a, b)) && Refs(Merge(a, b)) == Refs(a) + Refs(b)
    decreases Size(a) + Size(b)
  {
    if a.Node? && b.Node? {
      if a.priority < b.priority {
        MergeRefs(a.right, b);
      } else {
        MergeRefs(a, b.left);
      }
    }
  }

  // ---- the in-order sequence ----

  /** Split cuts the in-order sequence: no element is lost or reordered. */
  lemma {:induction false} SplitInOrder<R>(t: Tree<R>, k: int)
    ensures InOrder(Split(t, k).0) + InOrder(Split(t, k).1) == InOrder(t)
  {
    if t.Node? {
      SplitInOrder(if t.value.at > k then t.left else t.right, k);
      var (a, b) := Split(if t.value.at > k then t.left else t.right, k);
      if t.value.at > k {
        assert InOrder(a) + (InOrder(b) + [t.value] + InOrder(t.right)) == (InOrder(a) + InOrder(b)) + [t.value] + InOrder(t.right);
      } else {
        assert (InOrder(t.left) + [t.value] + InOrder(a)) + InOrder(b) == InOrder(t.left) + [t.value] + (InOrder(a) + InOrder(b));
      }
    }
  }

  lemma SortedParts(p: seq<Elem>, v: Elem, q: seq<Elem>)
    requires SortedByTime(p + [v] + q)
    ensures SortedByTime(p) && SortedByTime(q)
    ensures forall i :: 0 <= i < |p| ==> p[i].at <= v.at
    ensures forall i :: 0 <= i < |q| ==> v.at <= q[i].at
  {
    var s, n := p + [v] + q, |p|;
    assert s[n] == v && s[..n] == p && s[n + 1..] == q;
    forall i | 0 <= i < |p|
      ensures p[i].at <= v.at
    {
      assert s[i].at <= s[n].at;
    }
    forall i | 0 <= i < |q|
      ensures v.at <= q[i].at
    {
      assert s[n].at <= s[n + 1 + i].at;
    }
  }

  /** The cut is at the key: everything dated at or before k to the left, everything after it to the right. */
  lemma {:induction false} SplitCuts<R>(t: Tree<R>, k: int)
    requires SortedByTime(InOrder(t))
    ensures forall i :: 0 <= i < |InOrder(Split(t, k).0)| ==> InOrder(Split(t, k).0)[i].at <= k
    ensures forall i :: 0 <= i < |InOrder(Split(t, k).1)| ==> InOrder(Split(t, k).1)[i].at > k
  {
    if t.Node? {
      SortedParts(InOrder(t.left), t.value, InOrder(t.right));
      SplitCuts(if t.value.at > k then t.left else t.right, k);
    }
  }

  lemma RegroupRight(p: seq<Elem>, v: Elem, q: seq<Elem>, r: seq<Elem>)
    ensures p + [v] + (q + r) == (p + [v] + q) + r
  {
  }

  lemma RegroupLeft(p: seq<Elem>, q: seq<Elem>, v: Elem, r: seq<Elem>)
    ensures (p + q) + [v] + r == p + (q + [v] + r)
  {
  }

  /** Merge concatenates the in-order sequences. */
  lemma {:induction false} MergeInOrder<R>(a: Tree<R>, b: Tree<R>)
    ensures InOrder(Merge(a, b)) == InOrder(a) + InOrder(b)
    decreases Size(a) + Size(b)
  {
    if a.Node? && b.Node? {
      if a.priority < b.priority {
        MergeInOrder(a.right, b);
        RegroupRight(InOrder(a.left), a.value, InOrder(a.right), InOrder(b));
      } else {
        MergeInOrder(a, b.left);
        RegroupLeft(InOrder(a), InOrder(b.left), b.value, InOrder(b.right));
      }
    }
  }

  lemma {:induction false} RemoveMinInOrder<R>(t: Tree<R>)
    requires t.Node?
    ensures InOrder(t) != [] && InOrder(RemoveMin(t)) == InOrder(t)[1..]
  {
    if t.left.Node? {
      RemoveMinInOrder(t.left);
      assert InOrder(t)[1..] == InOrder(t.left)[1..] + [t.value] + InOrder(t.right);
    }
  }

  // ---- heap order ----

  lemma {:induction false} SplitHeap<R>(t: Tree<R>, k: int)
    requires HeapOrdered(t)
    ensures HeapOrdered(Split(t, k).0) && HeapOrdered(Split(t, k).1)
    ensures forall p :: AtLeast(t, p) ==> AtLeast(Split(t, k).0, p) && AtLeast(Split(t, k).1, p)
  {
    if t.Node? {
      SplitHeap(if t.value.at > k then t.left else t.right, k);
    }
  }

  lemma {:induction false} MergeHeap<R>(a: Tree<R>, b: Tree<R>)
    requires HeapOrdered(a) && HeapOrdered(b)
    ensures HeapOrdered(Merge(a, b))
    ensures forall p :: AtLeast(a, p) && AtLeast(b, p) ==> AtLeast(Merge(a, b), p)
    decreases Size(a) + Size(b)
  {
    if a.Node? && b.Node? {
      if a.priority < b.priority {
        MergeHeap(a.right, b);
      } else {
        MergeHeap(a, b.left);
      }
    }
  }

  lemma {:induction false} RemoveMinHeap<R>(t: Tree<R>)
    requires t.Node? && HeapOrdered(t)
    ensures HeapOrdered(RemoveMin(t))
    ensures forall p :: AtLeast(t, p) ==> AtLeast(RemoveMin(t), p)
  {
    if t.left.Node? {
      RemoveMinHeap(t.left);
    }
  }

  function Least<R>(t: Tree<R>): R
    requires t.Node?
  {
    if t.left.Leaf? then t.ref else Least(t.left)
  }

  lemma {:induction false} RemoveMinRefs<R>(t: Tree<R>)
    requires t.Node? && Separate(t)
    ensures Separate(RemoveMin(t)) && Least(t) in Refs(t) && Refs(RemoveMin(t)) == Refs(t) - {Least(t)}
  {
    if t.left.Node? {
      RemoveMinRefs(t.left);
    }
  }

  /** Removing the minimum takes the head of the in-order sequence and keeps everything else. */
  lemma PopFacts<R>(t: Tree<R>)
    requires t.Node? && Separate(t) && HeapOrdered(t) && SortedByTime(InOrder(t))
    ensures InOrder(t) != [] && InOrder(RemoveMin(t)) == InOrder(t)[1..] && SortedByTime(InOrder(RemoveMin(t)))
    ensures HeapOrdered(RemoveMin(t)) && Separate(RemoveMin(t))
    ensures Least(t) in Refs(t) && Refs(RemoveMin(t)) == Refs(t) - {Least(t)}
  {
    RemoveMinInOrder(t);
    RemoveMinHeap(t);
    RemoveMinRefs(t);
  }

  // ---- the sequence view of Add and RemoveExpired ----

  lemma {:induction false} RankIsCut(q: seq<Elem>, k: int, n: nat)
    requires n <= |q|
    requires forall i :: 0 <= i < n ==> q[i].at <= k
    requires forall i :: n <= i < |q| ==> q[i].at > k
    ensures RankAfter(q, k) == n
  {
    if n > 0 {
      RankIsCut(q[1..], k, n - 1);
    }
  }

  /** Stable insertion puts the element at the cut. */
  lemma InsertAtCut(p: seq<Elem>, r: seq<Elem>, e: Elem)
    requires forall i :: 0 <= i < |p| ==> p[i].at <= e.at
    requires forall i :: 0 <= i < |r| ==> r[i].at > e.at
    ensures InsertStable(p + r, e) == p + [e] + r
  {
    RankIsCut(p + r, e.at, |p|);
    assert (p + r)[..|p|] == p && (p + r)[|p|..] == r;
  }

  lemma InsertKeepsSorted(p: seq<Elem>, r: seq<Elem>, e: Elem)
    requires SortedByTime(p + r)
    requires forall i :: 0 <= i < |p| ==> p[i].at <= e.at
    requires forall i :: 0 <= i < |r| ==> r[i].at > e.at
    ensures SortedByTime(p + [e] + r)
  {
    var s, q := p + [e] + r, p + r;
    forall i, j | 0 <= i < j < |s|
      ensures s[i].at <= s[j].at
    {
      assert i < |p| ==> s[i] == p[i] == q[i];
      assert j < |p| ==> s[j] == p[j] == q[j];
      assert i > |p| ==> s[i] == r[i - |p| - 1] == q[i - 1];
      assert j > |p| ==> s[j] == r[j - |p| - 1] == q[j - 1];
    }
  }

  lemma MergeAround<R>(a: Tree<R>, n: Tree<R>, b: Tree<R>, e: Elem)
    requires InOrder(n) == [e]
    ensures InOrder(Merge(a, Merge(n, b))) == InOrder(a) + [e] + InOrder(b)
  {
    MergeInOrder(n, b);
    MergeInOrder(a, Merge(n, b));
    assert InOrder(a) + ([e] + InOrder(b)) == InOrder(a) + [e] + InOrder(b);
  }

  /** Splitting at the key of e leaves e's place open: between the parts it is stable insertion. */
  lemma SplitOpens<R>(t: Tree<R>, e: Elem)
    requires SortedByTime(InOrder(t))
    ensures var q := InOrder(Split(t, e.at).0) + [e] + InOrder(Split(t, e.at).1); q == InsertStable(InOrder(t), e) && SortedByTime(q)
  {
    var p, r := InOrder(Split(t, e.at).0), InOrder(Split(t, e.at).1);
    SplitInOrder(t, e.at);
    SplitCuts(t, e.at);
    InsertAtCut(p, r, e);
    InsertKeepsSorted(p, r, e);
  }

  /** For every priority, splitting at the new key and merging around the new node is stable insertion. */
  lemma AddIsStableInsert<R>(t: Tree<R>, n: Tree<R>, e: Elem)
    requires SortedByTime(InOrder(t)) && InOrder(n) == [e]
    ensures InOrder(Merge(Split(t, e.at).0, Merge(n, Split(t, e.at).1))) == InsertStable(InOrder(t), e)
    ensures SortedByTime(InOrder(Merge(Split(t, e.at).0, Merge(n, Split(t, e.at).1))))
  {
    MergeAround(Split(t, e.at).0, n, Split(t, e.at).1, e);
    SplitOpens(t, e);
  }

  lemma {:induction false} KeepLiveAll(q: seq<Elem>, now: int, expiry: int)
    ensures (forall i :: 0 <= i < |q| ==> !ExpiredByCutoff(q[i], now, expiry)) ==> KeepLive(q, now, expiry) == q
    ensures (forall i :: 0 <= i < |q| ==> ExpiredByCutoff(q[i], now, expiry)) ==> KeepLive(q, now, expiry) == []
  {
    if q != [] {
      KeepLiveAll(q[..|q| - 1], now, expiry);
    }
  }

  lemma {:induction false} KeepLiveConcat(p: seq<Elem>, q: seq<Elem>, now: int, expiry: int)
    ensures KeepLive(p + q, now, expiry) == KeepLive(p, now, expiry) + KeepLive(q, now, expiry)
  {
    if q == [] {
      assert p + q == p;
    } else {
      var n := |q| - 1;
      KeepLiveConcat(p, q[..n], now, expiry);
      assert (p + q)[..|p + q| - 1] == p + q[..n];
    }
  }

  lemma KeepLiveCut(p: seq<Elem>, r: seq<Elem>, now: int, expiry: int)
    requires forall i :: 0 <= i < |p| ==> p[i].at <= now - expiry
    requires forall i :: 0 <= i < |r| ==> r[i].at > now - expiry
    ensures KeepLive(p + r, now, expiry) == r
  {
    KeepLiveConcat(p, r, now, expiry);
    KeepLiveAll(p, now, expiry);
    KeepLiveAll(r, now, expiry);
  }

  /** Splitting at now - expiry keeps exactly the live elements on the right. */
  lemma {:induction false} SplitIsKeepLive<R>(t: Tree<R>, now: int, expiry: int)
    requires SortedByTime(InOrder(t))
    ensures InOrder(Split(t, now - expiry).1) == KeepLive(InOrder(t), now, expiry)
  {
    SplitInOrder(t, now - expiry);
    SplitCuts(t, now - expiry);
    CutOf(InOrder(t), InOrder(Split(t, now - expiry).0), InOrder(Split(t, now - expiry).1), now, expiry);
  }

  lemma {:induction false} CutOf(q: seq<Elem>, p: seq<Elem>, r: seq<Elem>, now: int, expiry: int)
    requires p + r == q
    requires forall i :: 0 <= i < |p| ==> p[i].at <= now - expiry
    requires forall i :: 0 <= i < |r| ==> r[i].at > now - expiry
    ensures r == KeepLive(q, now, expiry)
  {
    KeepLiveCut(p, r, now, expiry);
  }
}
