/** The doubly linked list container. */
module LinkedListImpl {
  import opened IdleSpec

  class ListNode {
    const val: Elem
    var next: ListNode?
    var prev: ListNode?

    constructor (val: Elem)
      ensures this.val == val && next == null && prev == null
    {
      this.val := val;
      next, prev := null, null;
    }
  }

  ghost function NodesOf(q: seq<ListNode>): set<ListNode> {
    set n | n in q
  }

  function Values(q: seq<ListNode>): seq<Elem> {
    seq(|q|, i requires 0 <= i < |q| => q[i].val)
  }

  lemma SweepSplit(q: seq<ListNode>, kept: seq<ListNode>, done: nat)
    requires done < |q|
    ensures var spine := kept + q[done..];
      spine[|kept|] == q[done] && spine[..|kept|] == kept && spine[|kept| + 1..] == q[done + 1..] && spine == kept + [q[done]] + q[done + 1..]
    ensures Values(kept + [q[done]]) == Values(kept) + [q[done].val]
  {
    var spine := kept + q[done..];
    assert spine[|kept| + 1..] == q[done..][1..] == q[done + 1..];
    assert q[done..] == [q[done]] + q[done + 1..];
  }

  class LinkedList {
    var head: ListNode?
    var tail: ListNode?
    var length: int
    ghost var spine: seq<ListNode>  // the nodes from head to tail

    /** Neighbours point at each other, and nothing points beyond the ends. */
    ghost predicate Linked()
      reads this, spine
    {
      (forall i, j :: 0 <= i < j < |spine| ==> spine[i] != spine[j])
      && (forall i, j :: 0 <= i && j == i + 1 && j < |spine| ==> spine[i].next == spine[j] && spine[j].prev == spine[i])
      && (spine != [] ==> spine[0].prev == null && spine[|spine| - 1].next == null)
    }

    ghost predicate Valid()
      reads this, spine
    {
      Linked() && length == |spine|
      && (if spine == [] then head == null && tail == null else head == spine[0] && tail == spine[|spine| - 1])
    }

    /** The idle elements, oldest first. */
    ghost function Contents(): seq<Elem>
      reads this
    {
      Values(spine)
    }

    constructor ()
      ensures Valid() && Contents() == [] && spine == []
    {
      head, tail, length := null, null, 0;
      spine := [];
    }

    method Len() returns (n: int)
      requires Valid()
      ensures n == |Contents()|
    {
      n := length;
    }

    method Add(w: Elem)
      requires Valid()
      modifies this, NodesOf(spine)
      ensures Valid() && Contents() == old(Contents()) + [w]
      ensures fresh(NodesOf(spine) - old(NodesOf(spine)))
    {
      var node := new ListNode(w);
      if head == null && tail == null {
        head := node;
        tail := node;
      } else {
        var prev := tail;
        tail.next := node;
        tail := tail.next;
        tail.prev := prev;
      }
      length := length + 1;
      spine := spine + [node];
    }

    method Pop() returns (val: Opt)
      requires Valid()
      modifies this, NodesOf(spine)
      ensures Valid() && NodesOf(spine) <= old(NodesOf(spine))
      ensures old(Contents()) == [] ==> val == Zero && Contents() == []
      ensures old(Contents()) != [] ==> val == Some(old(Contents())[0]) && Contents() == old(Contents())[1..]
    {
      if head == null {
        return Zero;
      }
      val := Some(head.val);
      if head == tail {
        head, tail := null, null;
      } else {
        assert spine[0].next == spine[1];
        head := head.next;
        head.prev := null;
      }
      length := length - 1;
      spine := spine[1..];
    }

    /** Unlinks the node at position i. */
    method RemoveNode(node: ListNode, ghost i: nat)
      requires Valid() && i < |spine| && node == spine[i]
      modifies this, NodesOf(spine)
      ensures Valid() && spine == old(spine[..i] + spine[i + 1..])
      ensures node.next == null && node.prev == null
    {
      assert i > 0 ==> node.prev == spine[i - 1];
      assert i < |spine| - 1 ==> node.next == spine[i + 1];
      if node.prev != null {
        node.prev.next := node.next;
      } else {
        head := node.next;
      }
      if node.next != null {
        node.next.prev := node.prev;
      } else {
        tail := node.prev;
      }
      node.prev := null;
      node.next := null;
      length := length - 1;
      ghost var q := spine;
      spine := spine[..i] + spine[i + 1..];
      assert forall k :: 0 <= k < i ==> spine[k] == q[k];
      assert forall k :: i <= k < |spine| ==> spine[k] == q[k + 1];
    }

    /** The successor that the traversal reads is the next node of the spine. */
    lemma NextOf(i: nat)
      requires Valid() && i < |spine|
      ensures spine[i].next == if i + 1 < |spine| then spine[i + 1] else null
    {
    }

    /** The first done nodes of q have been visited and removed of them unlinked; the list is their survivors followed by the rest of q. */
    ghost predicate Swept(q: seq<ListNode>, kept: seq<ListNode>, done: nat, removed: int, now: int, expiry: int)
      reads this, spine
    {
      Valid() && done <= |q| && spine == kept + q[done..] && NodesOf(spine) <= NodesOf(q) && removed == done - |kept|
      && Values(kept) == KeepLive(Values(q)[..done], now, expiry)
    }

    /** One round of the traversal: the successor is read before the node may be unlinked. */
    method Visit(node: ListNode, removed: int, now: int, expiry: int, ghost q: seq<ListNode>, ghost kept: seq<ListNode>, ghost done: nat)
      returns (next: ListNode?, removed': int, ghost kept': seq<ListNode>)
      requires Swept(q, kept, done, removed, now, expiry) && done < |q| && node == q[done]
      modifies this, NodesOf(spine)
      ensures Swept(q, kept', done + 1, removed', now, expiry)
      ensures (next == null <==> done + 1 == |q|) && (done + 1 < |q| ==> next == q[done + 1])
    {
      NextOf(|kept|);
      KeepLiveStep(Values(q), done, now, expiry);
      SweepSplit(q, kept, done);
      next := node.next;
      removed', kept' := removed, kept;
      if !(node.val.at + expiry > now) {
        RemoveNode(node, |kept|);
        removed' := removed + 1;
      } else {
        kept' := kept + [node];
      }
    }

    /** One pass over the list. */
    method RemoveExpired(now: int, expiry: int) returns (removed: int)
      requires Valid()
      modifies this, NodesOf(spine)
      ensures Valid() && NodesOf(spine) <= old(NodesOf(spine))
      ensures Contents() == KeepLive(old(Contents()), now, expiry)
      ensures removed == |old(Contents())| - |Contents()|
    {
      removed := 0;
      var node := head;
      ghost var q, done := spine, 0;
      ghost var kept: seq<ListNode> := [];
      while node != null
        invariant Swept(q, kept, done, removed, now, expiry) && q == old(spine)
        invariant (node == null <==> done == |q|) && (done < |q| ==> node == q[done])
        decreases |q| - done
      {
        node, removed, kept := Visit(node, removed, now, expiry, q, kept, done);
        done := done + 1;
      }
      assert q[done..] == [] && Values(q)[..done] == Values(q);
    }
  }
}
