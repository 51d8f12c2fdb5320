/** The min-heap container over container/heap's sift-up and sift-down. */
module MinHeapImpl {
  import opened IdleSpec

  /** Less: strictly earlier. */
  predicate Less(h: seq<Elem>, i: nat, j: nat)
    requires i < |h| && j < |h|
  {
    h[i].at < h[j].at
  }

  function Swapped(h: seq<Elem>, i: nat, j: nat): seq<Elem>
    requires i < |h| && j < |h|
  {
    h[i := h[j]][j := h[i]]
  }

  lemma SwapKeeps(h: seq<Elem>, i: nat, j: nat)
    requires i < |h| && j < |h|
    ensures multiset(Swapped(h, i, j)) == multiset(h) && |Swapped(h, i, j)| == |h|
  {
  }

  function Parent(k: nat): nat {
    if k == 0 then 0 else (k - 1) / 2
  }

  /** No element among the first n is earlier than its parent. */
  predicate Ordered(h: seq<Elem>, n: nat)
    requires n <= |h|
  {
    forall k {:trigger Parent(k)} :: 1 <= k < n ==> h[Parent(k)].at <= h[k].at
  }

  /** Ordered except possibly between j and its parent. */
  predicate OrderedBelow(h: seq<Elem>, j: nat)
    requires j < |h|
  {
    (forall k {:trigger Parent(k)} :: 1 <= k < |h| && k != j ==> h[Parent(k)].at <= h[k].at)
    && (forall k {:trigger Parent(k)} :: 1 <= k < |h| && Parent(k) == j ==> h[Parent(j)].at <= h[k].at)
  }

  /** Ordered on the first n except possibly between i and its children. */
  predicate OrderedAbove(h: seq<Elem>, i: nat, n: nat)
    requires i < n <= |h|
  {
    (forall k {:trigger Parent(k)} :: 1 <= k < n && Parent(k) != i ==> h[Parent(k)].at <= h[k].at)
    && (i > 0 ==> forall k {:trigger Parent(k)} :: 1 <= k < n && Parent(k) == i ==> h[Parent(i)].at <= h[k].at)
  }

  lemma UpSwap(h: seq<Elem>, j: nat)
    requires 0 < j < |h| && OrderedBelow(h, j) && Less(h, j, Parent(j))
    ensures OrderedBelow(Swapped(h, Parent(j), j), Parent(j))
  {
    var i := Parent(j);
    var s := Swapped(h, i, j);
    forall k | 1 <= k < |s| && k != i
      ensures s[Parent(k)].at <= s[k].at
    {
      assert k != j ==> h[Parent(k)].at <= h[k].at;
      assert i > 0 ==> h[Parent(i)].at <= h[i].at;
    }
    forall k | 1 <= k < |s| && Parent(k) == i
      ensures s[Parent(i)].at <= s[k].at
    {
      assert k != j ==> h[Parent(k)].at <= h[k].at;
      assert i > 0 ==> h[Parent(i)].at <= h[i].at;
    }
  }

  /** j is the earlier of i's children within the first n. */
  predicate EarlierChild(h: seq<Elem>, i: nat, j: nat, n: nat)
    requires n <= |h|
  {
    i < j < n && Parent(j) == i && forall k {:trigger Parent(k)} :: 1 <= k < n && Parent(k) == i ==> h[j].at <= h[k].at
  }

  /** The child that down compares with. */
  function PickChild(h: seq<Elem>, i: nat, n: nat): nat
    requires 2 * i + 1 < n <= |h|
  {
    if 2 * i + 2 < n && Less(h, 2 * i + 2, 2 * i + 1) then 2 * i + 2 else 2 * i + 1
  }

  /** The children of i are 2i + 1 and 2i + 2; the choice that down makes is the earlier one within the first n. */
  lemma Children(h: seq<Elem>, i: nat, n: nat)
    requires n <= |h|
    ensures 2 * i + 1 >= n ==> forall k {:trigger Parent(k)} :: 1 <= k < n ==> Parent(k) != i
    ensures 2 * i + 1 < n ==> EarlierChild(h, i, PickChild(h, i, n), n)
  {
    forall k | 1 <= k < n && Parent(k) == i
      ensures k == 2 * i + 1 || k == 2 * i + 2
    {
    }
  }

  /** Swapping the root with the last element leaves only the root out of place. */
  lemma SwapOut(h: seq<Elem>)
    requires |h| > 1 && Ordered(h, |h|)
    ensures OrderedAbove(Swapped(h, 0, |h| - 1), 0, |h| - 1)
  {
    var s := Swapped(h, 0, |h| - 1);
    forall k | 1 <= k < |h| - 1 && Parent(k) != 0
      ensures s[Parent(k)].at <= s[k].at
    {
      assert s[k] == h[k] && s[Parent(k)] == h[Parent(k)];
    }
  }

  lemma DropLast(h: seq<Elem>)
    requires h != []
    ensures multiset(h[..|h| - 1]) == multiset(h) - multiset{h[|h| - 1]}
  {
    assert h == h[..|h| - 1] + [h[|h| - 1]];
  }

  lemma DownSwap(h: seq<Elem>, i: nat, j: nat, n: nat)
    requires n <= |h| && EarlierChild(h, i, j, n) && OrderedAbove(h, i, n) && Less(h, j, i)
    ensures OrderedAbove(Swapped(h, i, j), j, n)
  {
    var s := Swapped(h, i, j);
    forall k | 1 <= k < n && Parent(k) != j
      ensures s[Parent(k)].at <= s[k].at
    {
      if k == i {
        assert h[Parent(i)].at <= h[j].at;
      } else if Parent(k) != i {
        assert h[Parent(k)].at <= h[k].at;
      }
    }
    forall k | 1 <= k < n && Parent(k) == j
      ensures s[Parent(j)].at <= s[k].at
    {
      assert h[Parent(k)].at <= h[k].at;
    }
  }

  lemma ChildNotEarlier(h: seq<Elem>, i: nat, j: nat, n: nat)
    requires n <= |h| && EarlierChild(h, i, j, n) && OrderedAbove(h, i, n) && !Less(h, j, i)
    ensures Ordered(h, n)
  {
    DownDone(h, i, n);
  }

  lemma DownDone(h: seq<Elem>, i: nat, n: nat)
    requires i < n <= |h| && OrderedAbove(h, i, n)
    requires forall k {:trigger Parent(k)} :: 1 <= k < n && Parent(k) == i ==> h[i].at <= h[k].at
    ensures Ordered(h, n)
  {
  }

  /** The root of a heap is the earliest element. */
  lemma {:induction false} RootIsEarliest(h: seq<Elem>, n: nat, k: nat)
    requires n <= |h| && Ordered(h, n) && k < n
    ensures h[0].at <= h[k].at
    decreases k
  {
    if k > 0 {
      RootIsEarliest(h, n, Parent(k));
    }
  }

  class MinHeap {
    var inner: seq<Elem>
    var size: int

    ghost predicate Valid()
      reads this
    {
      Ordered(inner, |inner|) && size == |inner|
    }

    constructor ()
      ensures Valid() && inner == []
    {
      inner, size := [], 0;
    }

    method Len() returns (n: int)
      requires Valid()
      ensures n == |inner|
    {
      n := size;
    }

    /** container/heap up: swap towards the root while earlier than the parent. */
    method Up(j0: nat)
      requires j0 < |inner| && OrderedBelow(inner, j0)
      modifies this`inner
      ensures Ordered(inner, |inner|) && multiset(inner) == old(multiset(inner)) && |inner| == old(|inner|)
    {
      var j: nat := j0;
      while true
        invariant j < |inner| && |inner| == old(|inner|)
        invariant OrderedBelow(inner, j) && multiset(inner) == old(multiset(inner))
        decreases j
      {
        var i := Parent(j);
        if i == j || !Less(inner, j, i) {
          break;
        }
        SwapKeeps(inner, i, j);
        UpSwap(inner, j);
        inner := Swapped(inner, i, j);
        j := i;
      }
    }

    /** One round of container/heap down: swap with the earlier child if that is earlier. */
    method DownOnce(i: nat, n: nat) returns (next: nat, moved: bool)
      requires i < n <= |inner| && OrderedAbove(inner, i, n)
      modifies this`inner
      ensures |inner| == old(|inner|) && multiset(inner) == old(multiset(inner))
      ensures forall k :: n <= k < |inner| ==> inner[k] == old(inner)[k]
      ensures moved ==> i < next < n && OrderedAbove(inner, next, n)
      ensures !moved ==> Ordered(inner, n)
    {
      Children(inner, i, n);
      next, moved := 2 * i + 1, false;
      if next >= n {
        DownDone(inner, i, n);
      } else {
        next := PickChild(inner, i, n);
        if Less(inner, next, i) {
          SwapKeeps(inner, i, next);
          DownSwap(inner, i, next, n);
          inner := Swapped(inner, i, next);
          moved := true;
        } else {
          ChildNotEarlier(inner, i, next, n);
        }
      }
    }

    /** container/heap down: swap towards the leaves while later than the earlier child. */
    method Down(n: nat)
      requires n <= |inner| && (n > 0 ==> OrderedAbove(inner, 0, n))
      modifies this`inner
      ensures |inner| == old(|inner|) && Ordered(inner, n)
      ensures multiset(inner) == old(multiset(inner)) && forall k :: n <= k < |inner| ==> inner[k] == old(inner)[k]
    {
      var i: nat, moved := 0, n > 0;
      while moved
        invariant |inner| == old(|inner|) && multiset(inner) == old(multiset(inner))
        invariant forall k :: n <= k < |inner| ==> inner[k] == old(inner)[k]
        invariant moved ==> i < n && OrderedAbove(inner, i, n)
        invariant !moved ==> Ordered(inner, n)
        decreases moved, n - i
      {
        i, moved := DownOnce(i, n);
      }
    }

    method Add(w: Elem)
      requires Valid()
      modifies this
      ensures Valid() && multiset(inner) == old(multiset(inner)) + multiset{w}
    {
      inner := inner + [w];
      Up(|inner| - 1);
      size := size + 1;
    }

    /** Removes and returns an element with the smallest time. */
    method Pop() returns (w: Opt)
      requires Valid()
      modifies this
      ensures Valid()
      ensures old(inner) == [] ==> w == Zero && inner == []
      ensures old(inner) != [] ==> w == Some(old(inner)[0]) && multiset(inner) == old(multiset(inner)) - multiset{old(inner)[0]}
      ensures old(inner) != [] ==> |inner| == old(|inner|) - 1
      ensures old(inner) != [] ==> forall e :: e in old(inner) ==> w.value.at <= e.at
    {
      if |inner| == 0 {
        return Zero;
      }
      RootBefore(inner);
      SinkRoot();
      var n := |inner| - 1;
      w := Some(inner[n]);
      DropLast(inner);
      inner := inner[..n];
      size := size - 1;
    }

    /** heap.Pop before its final cut: the root goes to the end and the rest is a heap again. */
    method SinkRoot()
      requires Ordered(inner, |inner|) && inner != []
      modifies this`inner
      ensures |inner| == old(|inner|) && multiset(inner) == old(multiset(inner))
      ensures inner[|inner| - 1] == old(inner)[0] && Ordered(inner, |inner| - 1)
    {
      var n := |inner| - 1;
      SwapKeeps(inner, 0, n);
      if n > 0 {
        SwapOut(inner);
      }
      inner := Swapped(inner, 0, n);
      Down(n);
    }

    /** Pops while the root is expired; the first live root stops the loop without losing an expired element. */
    method RemoveExpired(now: int, expiry: int) returns (removed: int)
      requires Valid()
      modifies this
      ensures Valid() && Purged(multiset(old(inner)), multiset(inner), now, expiry)
      ensures removed == |old(inner)| - |inner|
    {
      removed := 0;
      while |inner| > 0
        invariant Valid() && removed == |old(inner)| - |inner|
        invariant PurgedPart(multiset(old(inner)), multiset(inner), now, expiry)
        decreases |inner|
      {
        var root := inner[0];
        if root.at + expiry > now {
          break;
        }
        var popped := Pop();
        removed := removed + 1;
      }
      if inner != [] {
        RootBefore(inner);
      }
    }
  }

  lemma RootBefore(h: seq<Elem>)
    requires h != [] && Ordered(h, |h|)
    ensures forall e :: e in h ==> h[0].at <= e.at
  {
    forall e | e in h
      ensures h[0].at <= e.at
    {
      var k :| 0 <= k < |h| && h[k] == e;
      RootIsEarliest(h, |h|, k);
    }
  }
}
