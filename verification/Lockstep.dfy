/** The containers side by side, called in lockstep. */
module Lockstep {
  import opened IdleSpec
  import opened IdleContract
  import LinkedListImpl
  import SliceImpl
  import RingQueueImpl
  import MinHeapImpl
  import TreapImpl
  import TreapSpec

  type List = LinkedListImpl.LinkedList
  type Slice = SliceImpl.Slice
  type Ring = RingQueueImpl.RingQueue
  type Heap = MinHeapImpl.MinHeap
  type Treap = TreapImpl.Treap

  datatype Reply = Done | Got(w: Opt) | Removed(count: int)

  ghost predicate FifoAlike(l: List, s: Slice, r: Ring)
    reads l, l.spine, s, s.backing, r, r.buf
  {
    l.Valid() && s.Valid() && r.Valid() && s.backing != r.buf && l.Contents() == s.contents == r.contents
  }

  method CallList(l: List, op: Op) returns (reply: Reply)
    requires l.Valid()
    modifies l, LinkedListImpl.NodesOf(l.spine)
    ensures l.Valid() && l.Contents() == FifoAfter(old(l.Contents()), op) && reply == FifoReply(old(l.Contents()), op)
    ensures fresh(LinkedListImpl.NodesOf(l.spine) - old(LinkedListImpl.NodesOf(l.spine)))
  {
    match op
    case Add(e) =>
      l.Add(e);
      reply := Done;
    case Pop =>
      var w := l.Pop();
      reply := Got(w);
    case Purge(now, expiry) =>
      var n := l.RemoveExpired(now, expiry);
      reply := Removed(n);
  }

  method CallSlice(s: Slice, op: Op) returns (reply: Reply)
    requires s.Valid()
    modifies s, s.backing
    ensures s.Valid() && s.contents == FifoAfter(old(s.contents), op) && reply == FifoReply(old(s.contents), op)
    ensures s.backing == old(s.backing) || fresh(s.backing)
  {
    match op
    case Add(e) =>
      s.Add(e);
      reply := Done;
    case Pop =>
      var w := s.Pop();
      reply := Got(w);
    case Purge(now, expiry) =>
      var n := s.RemoveExpired(now, expiry);
      reply := Removed(n);
  }

  method CallRing(r: Ring, op: Op) returns (reply: Reply)
    requires r.Valid()
    modifies r, r.buf
    ensures r.Valid() && r.contents == FifoAfter(old(r.contents), op) && reply == FifoReply(old(r.contents), op)
    ensures r.buf == old(r.buf) || fresh(r.buf)
  {
    match op
    case Add(e) =>
      r.Add(e);
      reply := Done;
    case Pop =>
      var w := r.Pop();
      reply := Got(w);
    case Purge(now, expiry) =>
      var n := r.RemoveExpired(now, expiry);
      reply := Removed(n);
  }

  /** The first-in first-out queue that list, slice and ring all are. */
  function FifoAfter(q: seq<Elem>, op: Op): seq<Elem> {
    match op
    case Add(e) => q + [e]
    case Pop => if q == [] then [] else q[1..]
    case Purge(now, expiry) => KeepLive(q, now, expiry)
  }

  function FifoReply(q: seq<Elem>, op: Op): Reply {
    match op
    case Add(e) => Done
    case Pop => Got(if q == [] then Zero else Some(q[0]))
    case Purge(now, expiry) => Removed(|q| - |KeepLive(q, now, expiry)|)
  }

  method StepFifo(l: List, s: Slice, r: Ring, op: Op) returns (x: Reply, y: Reply, z: Reply)
    requires FifoAlike(l, s, r)
    modifies l, LinkedListImpl.NodesOf(l.spine), s, s.backing, r, r.buf
    ensures FifoAlike(l, s, r) && x == y == z
    ensures fresh(LinkedListImpl.NodesOf(l.spine) - old(LinkedListImpl.NodesOf(l.spine)))
    ensures s.backing == old(s.backing) || fresh(s.backing)
    ensures r.buf == old(r.buf) || fresh(r.buf)
  {
    x := CallList(l, op);
    y := CallSlice(s, op);
    z := CallRing(r, op);
  }

  /** Any calls, in any order: list, slice and ring give the same replies and hold the same elements in the same order. */
  method DriveFifo(l: List, s: Slice, r: Ring, ops: seq<Op>) returns (a: seq<Reply>, b: seq<Reply>, c: seq<Reply>)
    requires FifoAlike(l, s, r)
    modifies l, LinkedListImpl.NodesOf(l.spine), s, s.backing, r, r.buf
    ensures FifoAlike(l, s, r) && |a| == |ops| && a == b == c
  {
    a, b, c := [], [], [];
    ghost var backing, buf := s.backing, r.buf;
    for i := 0 to |ops|
      invariant FifoAlike(l, s, r) && |a| == i && a == b == c
      invariant fresh(LinkedListImpl.NodesOf(l.spine) - old(LinkedListImpl.NodesOf(l.spine)))
      invariant s.backing == backing || fresh(s.backing)
      invariant r.buf == buf || fresh(r.buf)
    {
      var x, y, z := StepFifo(l, s, r, ops[i]);
      a, b, c := a + [x], b + [y], c + [z];
    }
  }

  method CallHeap(h: Heap, op: Op) returns (seen: Seen)
    requires h.Valid()
    modifies h
    ensures h.Valid() && HeapCall(old(h.inner), op, h.inner, seen)
  {
    match op
    case Add(e) =>
      h.Add(e);
      seen := Nothing;
    case Pop =>
      var w := h.Pop();
      seen := if w == Zero then Empty else Date(w.value.at);
    case Purge(now, expiry) =>
      var n := h.RemoveExpired(now, expiry);
      seen := Gone(n);
  }

  method CallTreap(t: Treap, op: Op, priority: int) returns (seen: Seen)
    requires t.Valid()
    modifies t, TreapSpec.Refs(t.tree), t.pool
    ensures t.Valid() && t.Contents() == TreapAfter(old(t.Contents()), op) && seen == TreapSees(old(t.Contents()), op)
    ensures fresh(TreapSpec.Refs(t.tree) + t.pool - old(TreapSpec.Refs(t.tree) + t.pool))
  {
    match op
    case Add(e) =>
      t.Add(e, priority);
      seen := Nothing;
    case Pop =>
      var w := t.Pop();
      seen := if w == Zero then Empty else Date(w.value.at);
    case Purge(now, expiry) =>
      var n := t.RemoveExpired(now, expiry);
      seen := Gone(n);
  }

  method StepOrdered(h: Heap, t: Treap, op: Op, priority: int) returns (x: Seen, y: Seen)
    requires h.Valid() && t.Valid() && SameTimes(t.Contents(), h.inner)
    modifies h, t, TreapSpec.Refs(t.tree), t.pool
    ensures h.Valid() && t.Valid() && SameTimes(t.Contents(), h.inner) && x == y
    ensures fresh(TreapSpec.Refs(t.tree) + t.pool - old(TreapSpec.Refs(t.tree) + t.pool))
  {
    ghost var q, r := t.Contents(), h.inner;
    assert allocated(TreapSpec.Refs(t.tree));
    x := CallHeap(h, op);
    CallAgrees(q, r, op, h.inner, x);
    y := CallTreap(t, op, priority);
  }

  /** Any calls and any random priorities: heap and treap show the same dates and counts. */
  method DriveOrdered(h: Heap, t: Treap, ops: seq<Op>, priorities: seq<int>) returns (a: seq<Seen>, b: seq<Seen>)
    requires h.Valid() && t.Valid() && SameTimes(t.Contents(), h.inner) && |priorities| == |ops|
    modifies h, t, TreapSpec.Refs(t.tree), t.pool
    ensures h.Valid() && t.Valid() && SameTimes(t.Contents(), h.inner) && |a| == |ops| && a == b
  {
    a, b := [], [];
    for i := 0 to |ops|
      invariant h.Valid() && t.Valid() && SameTimes(t.Contents(), h.inner) && |a| == i && a == b
      invariant fresh(TreapSpec.Refs(t.tree) + t.pool - old(TreapSpec.Refs(t.tree) + t.pool))
    {
      var x, y := StepOrdered(h, t, ops[i], priorities[i]);
      a, b := a + [x], b + [y];
    }
  }

  /** A container that held the elements of q has dropped the expired ones and counted them. */
  ghost predicate Purging(q: seq<Elem>, left: seq<Elem>, removed: int, now: int, expiry: int) {
    multiset(left) == multiset(KeepLive(q, now, expiry)) && removed == |q| - |KeepLive(q, now, expiry)|
  }

  lemma {:induction false} FilterPurges(q: seq<Elem>, p: seq<Elem>, now: int, expiry: int)
    requires multiset(p) == multiset(q)
    ensures Purging(q, KeepLive(p, now, expiry), |p| - |KeepLive(p, now, expiry)|, now, expiry)
  {
    KeepLivePurges(p, now, expiry);
    PurgeAgrees(q, p, KeepLive(p, now, expiry), now, expiry);
  }

  method PurgeFifo(l: List, s: Slice, r: Ring, now: int, expiry: int, ghost q: seq<Elem>) returns (a: int, b: int, c: int)
    requires l.Valid() && s.Valid() && r.Valid() && s.backing != r.buf
    requires multiset(l.Contents()) == multiset(s.contents) == multiset(r.contents) == multiset(q)
    modifies l, LinkedListImpl.NodesOf(l.spine), s, s.backing, r, r.buf
    ensures Purging(q, l.Contents(), a, now, expiry) && Purging(q, s.contents, b, now, expiry) && Purging(q, r.contents, c, now, expiry)
  {
    FilterPurges(q, l.Contents(), now, expiry);
    FilterPurges(q, s.contents, now, expiry);
    FilterPurges(q, r.contents, now, expiry);
    a := l.RemoveExpired(now, expiry);
    b := s.RemoveExpired(now, expiry);
    c := r.RemoveExpired(now, expiry);
  }

  method PurgeOrdered(h: Heap, t: Treap, now: int, expiry: int, ghost q: seq<Elem>) returns (d: int, e: int)
    requires h.Valid() && t.Valid() && multiset(h.inner) == multiset(t.Contents()) == multiset(q)
    modifies h, t, TreapSpec.Refs(t.tree)
    ensures Purging(q, h.inner, d, now, expiry) && Purging(q, t.Contents(), e, now, expiry)
  {
    FilterPurges(q, t.Contents(), now, expiry);
    e := t.RemoveExpired(now, expiry);
    ghost var r := h.inner;
    d := h.RemoveExpired(now, expiry);
    PurgeAgrees(q, r, h.inner, now, expiry);
  }

  /** The same elements in all five: RemoveExpired leaves the same elements in all five and returns the same count. */
  method PurgeAll(l: List, s: Slice, r: Ring, h: Heap, t: Treap, now: int, expiry: int, ghost q: seq<Elem>)
    returns (a: int, b: int, c: int, d: int, e: int)
    requires l.Valid() && s.Valid() && r.Valid() && h.Valid() && t.Valid() && s.backing != r.buf
    requires multiset(l.Contents()) == multiset(s.contents) == multiset(r.contents) == multiset(q)
    requires multiset(h.inner) == multiset(t.Contents()) == multiset(q)
    modifies l, LinkedListImpl.NodesOf(l.spine), s, s.backing, r, r.buf, h, t, TreapSpec.Refs(t.tree)
    ensures Purging(q, l.Contents(), a, now, expiry) && Purging(q, s.contents, b, now, expiry) && Purging(q, r.contents, c, now, expiry)
    ensures Purging(q, h.inner, d, now, expiry) && Purging(q, t.Contents(), e, now, expiry)
  {
    d, e := PurgeOrdered(h, t, now, expiry, q);
    a, b, c := PurgeFifo(l, s, r, now, expiry, q);
  }
}
