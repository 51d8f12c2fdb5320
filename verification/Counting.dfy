/** Counting the elements of a sequence that satisfy a predicate, and sums of weights. */
module Counting {

  predicate Distinct<T(==)>(q: seq<T>) {
    forall i, j :: 0 <= i < j < |q| ==> q[i] != q[j]
  }

  function Count<T>(q: seq<T>, p: T -> bool): nat {
    if q == [] then 0
    else Count(q[..|q| - 1], p) + (if p(q[|q| - 1]) then 1 else 0)
  }

  lemma {:induction false} CountAppend<T>(q: seq<T>, x: T, p: T -> bool)
    ensures Count(q + [x], p) == Count(q, p) + (if p(x) then 1 else 0)
  {
    assert (q + [x])[..|q|] == q;
  }

  /** Changing one element moves the count by the difference at that element. */
  lemma {:induction false} CountUpdate<T>(q: seq<T>, i: nat, x: T, p: T -> bool)
    requires i < |q|
    ensures Count(q[i := x], p)
         == Count(q, p) - (if p(q[i]) then 1 else 0) + (if p(x) then 1 else 0)
  {
    var n := |q| - 1;
    if i == n {
      assert q[i := x][..n] == q[..n];
    } else {
      assert q[i := x][..n] == q[..n][i := x];
      CountUpdate(q[..n], i, x, p);
    }
  }

  /** Pointwise agreement gives equal counts. */
  lemma {:induction false} CountSame<T>(q: seq<T>, r: seq<T>, p: T -> bool)
    requires |q| == |r|
    requires forall i :: 0 <= i < |q| ==> p(q[i]) == p(r[i])
    ensures Count(q, p) == Count(r, p)
  {
    if q != [] {
      var n := |q| - 1;
      assert forall i :: 0 <= i < n ==> q[..n][i] == q[i] && r[..n][i] == r[i];
      CountSame(q[..n], r[..n], p);
    }
  }

  /** A positive count has a witness, and a witness makes the count positive. */
  lemma {:induction false} CountPositive<T>(q: seq<T>, p: T -> bool)
    ensures Count(q, p) > 0 <==> exists i :: 0 <= i < |q| && p(q[i])
  {
    if q != [] {
      var n := |q| - 1;
      CountPositive(q[..n], p);
      assert q == q[..n] + [q[n]];
    }
  }

  lemma ConsConcat<T>(a: seq<T>, b: seq<T>)
    requires a != []
    ensures a + b == [a[0]] + (a[1..] + b)
  {
    assert a == [a[0]] + a[1..];
  }

  function Sum(q: seq<nat>): nat {
    if q == [] then 0 else Sum(q[..|q| - 1]) + q[|q| - 1]
  }

  /** Sums follow the pointwise order, strictly if one position is strict. */
  lemma {:induction false} SumOrder(q: seq<nat>, r: seq<nat>)
    requires |q| == |r|
    requires forall i :: 0 <= i < |q| ==> q[i] <= r[i]
    ensures Sum(q) <= Sum(r)
    ensures (exists i :: 0 <= i < |q| && q[i] < r[i]) ==> Sum(q) < Sum(r)
  {
    if q != [] {
      var n := |q| - 1;
      SumOrder(q[..n], r[..n]);
      if i :| 0 <= i < |q| && q[i] < r[i] && i < n {
        assert q[..n][i] < r[..n][i];
      }
    }
  }

  lemma {:induction false} SumPositive(q: seq<nat>)
    ensures Sum(q) > 0 ==> exists i :: 0 <= i < |q| && q[i] > 0
  {
    if q != [] {
      SumPositive(q[..|q| - 1]);
      assert forall i :: 0 <= i < |q| - 1 ==> q[..|q| - 1][i] == q[i];
    }
  }

  /** A sequence has at least as many positions as distinct elements. */
  lemma {:induction false} ElementsBound<T>(q: seq<T>)
    ensures |set x | x in q| <= |q|
  {
    if q == [] {
      assert (set x | x in q) == {};
    } else {
      var n := |q| - 1;
      ElementsBound(q[..n]);
      assert q == q[..n] + [q[n]];
      assert (set x | x in q) == (set x | x in q[..n]) + {q[n]};
    }
  }

  lemma {:induction false} SubsetSize<T>(a: set<T>, b: set<T>)
    requires a <= b
    ensures |a| <= |b|
  {
    assert b == a + (b - a);
  }
}
