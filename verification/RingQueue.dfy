/** The ring queue: a circular buffer that doubles when full and compacts expired elements in place. */
module RingQueueImpl {
  import opened IdleSpec
  import opened Shards

  const DEFAULT_RING_QUEUE_CAPACITY := 64

  lemma WrapIs(x: nat, cap: nat)
    requires cap >= 1 && x < 2 * cap
    ensures x % cap == if x < cap then x else x - cap
  {
    if x < cap {
      ModUnique(x, cap, 0, x);
    } else {
      ModUnique(x, cap, 1, x - cap);
    }
  }

  class RingQueue {
    var buf: array<Opt>
    var head: nat
    var tail: nat
    var length: nat
    ghost var contents: seq<Elem>  // oldest first

    /** How far slot p lies behind the head, going around the ring. */
    ghost function Offset(p: int): int
      reads this
    {
      if p >= head then p - head else p + buf.Length - head
    }

    /** What the slot at the given offset must hold: an element, or zero when free. */
    ghost function Expected(o: int): Opt
      reads this
    {
      if 0 <= o < |contents| then Some(contents[o]) else Zero
    }

    ghost predicate Valid()
      reads this, buf
    {
      head < buf.Length && length == |contents| <= buf.Length
      && tail == (head + length) % buf.Length
      && forall p :: 0 <= p < buf.Length ==> buf[p] == Expected(Offset(p))
    }

    constructor ()
      ensures Valid() && contents == [] && fresh(buf) && buf.Length == 64
    {
      buf := new Opt[DEFAULT_RING_QUEUE_CAPACITY](_ => Zero);
      head, tail, length := 0, 0, 0;
      contents := [];
    }

    method Len() returns (n: int)
      requires Valid()
      ensures n == |contents|
    {
      n := length;
    }

    /** Doubles the capacity and lays the elements out from slot 0 in FIFO order. */
    method Grow()
      requires Valid() && length == buf.Length
      modifies this
      ensures Valid() && contents == old(contents) && fresh(buf) && length < buf.Length == 2 * old(buf.Length)
    {
      var n, cap := length, buf.Length;
      var newBuf := new Opt[cap * 2](_ => Zero);
      var i := 0;
      while i < n
        modifies newBuf
        invariant i <= n
        invariant forall p :: 0 <= p < newBuf.Length ==> newBuf[p] == if p < i then Some(contents[p]) else Zero
      {
        WrapIs(head + i, cap);
        newBuf[i] := buf[(head + i) % cap];
        i := i + 1;
      }
      head, tail := 0, n;
      buf := newBuf;
      WrapIs(n, buf.Length);
    }

    /** Appends an element behind the newest one. */
    method Add(w: Elem)
      requires Valid()
      modifies this, buf
      ensures Valid() && contents == old(contents) + [w] && (buf == old(buf) || fresh(buf))
    {
      if buf.Length == length {
        Grow();
      }
      Append(w);
    }

    method Append(w: Elem)
      requires Valid() && length < buf.Length
      modifies this`tail, this`length, this`contents, buf
      ensures Valid() && contents == old(contents) + [w]
    {
      TailSlot();
      buf[tail] := Some(w);
      tail := (tail + 1) % buf.Length;
      length := length + 1;
      contents := contents + [w];
    }

    /** The tail is the slot right behind the contents, and the next tail is the one after it. */
    lemma TailSlot()
      requires Valid() && length < buf.Length
      ensures tail < buf.Length && (tail + 1) % buf.Length == (head + length + 1) % buf.Length
      ensures forall p :: 0 <= p < buf.Length ==> (Offset(p) == length <==> p == tail)
    {
      WrapIs(head + length, buf.Length);
      WrapIs(head + length + 1, buf.Length);
      WrapIs(tail + 1, buf.Length);
    }

    /** Removes and returns the oldest element and zeroes its slot. */
    method Pop() returns (w: Opt)
      requires Valid()
      modifies this, buf
      ensures Valid() && buf == old(buf)
      ensures old(contents) == [] ==> w == Zero && contents == []
      ensures old(contents) != [] ==> w == Some(old(contents)[0]) && contents == old(contents)[1..]
    {
      if length == 0 {
        return Zero;
      }
      WrapIs(head + length, buf.Length);
      WrapIs(head + 1, buf.Length);
      w := buf[head];
      buf[head] := Zero;
      head := (head + 1) % buf.Length;
      length := length - 1;
      contents := contents[1..];
      WrapIs(head + length, buf.Length);
    }

    /** Compacts the survivors towards the head in one pass, without a temporary slice, and zeroes the rest. */
    method RemoveExpired(now: int, expiry: int) returns (removed: int)
      requires Valid()
      modifies this, buf
      ensures Valid() && buf == old(buf)
      ensures contents == KeepLive(old(contents), now, expiry)
      ensures removed == |old(contents)| - |contents|
    {
      var n := length;
      if n == 0 {
        return 0;
      }
      var writeIdx := Compact(now - expiry, now, expiry);
      ClearFrom(writeIdx, n, KeepLive(contents, now, expiry));
      removed := n - writeIdx;
      contents := KeepLive(contents, now, expiry);
      WrapIs(head + writeIdx, buf.Length);
      tail := (head + writeIdx) % buf.Length;
      length := length - removed;
    }

    /** The first i elements have been scanned and the survivors kept lie from the head on; the rest is unread. */
    ghost predicate Compacted(kept: seq<Elem>, i: nat)
      reads this, buf
    {
      head < buf.Length && |kept| <= i <= |contents| <= buf.Length
      && forall p :: 0 <= p < buf.Length ==>
           var o := Offset(p); (o < |kept| ==> buf[p] == Some(kept[o])) && (i <= o ==> buf[p] == Expected(o))
    }

    /** Element i survives and moves to write position |kept|, which has been read already. */
    method KeepElement(i: nat, writeIdx: nat, w: Opt, ghost kept: seq<Elem>)
      requires Compacted(kept, i) && writeIdx == |kept| && i < |contents| && w == Some(contents[i])
      modifies buf
      ensures Compacted(kept + [contents[i]], i + 1)
    {
      WrapIs(head + i, buf.Length);
      WrapIs(head + writeIdx, buf.Length);
      if writeIdx != i {
        buf[(head + writeIdx) % buf.Length] := w;
      }
    }

    /** The compaction loop: the write position never passes the scan position, so no unread survivor is overwritten. */
    method Compact(cutoff: int, ghost now: int, ghost expiry: int) returns (writeIdx: nat)
      requires Valid() && cutoff == now - expiry
      modifies buf
      ensures writeIdx == |KeepLive(contents, now, expiry)| && Compacted(KeepLive(contents, now, expiry), length)
    {
      var n := length;
      ghost var kept: seq<Elem> := [];
      writeIdx := 0;
      var i := 0;
      while i < n
        invariant i <= n && writeIdx == |kept| && kept == KeepLive(contents[..i], now, expiry)
        invariant Compacted(kept, i)
      {
        KeepLiveStep(contents, i, now, expiry);
        writeIdx, kept := Consider(i, writeIdx, cutoff, kept);
        i := i + 1;
      }
      assert contents[..n] == contents;
    }

    /** One round of the compaction: element i is kept unless it is expired. */
    method Consider(i: nat, writeIdx: nat, cutoff: int, ghost kept: seq<Elem>) returns (writeIdx': nat, ghost kept': seq<Elem>)
      requires Compacted(kept, i) && writeIdx == |kept| && i < |contents|
      modifies buf
      ensures Compacted(kept', i + 1) && writeIdx' == |kept'|
      ensures kept' == kept + if contents[i].at > cutoff then [contents[i]] else []
    {
      WrapIs(head + i, buf.Length);
      var w := buf[(head + i) % buf.Length];
      assert w == Some(contents[i]);
      writeIdx', kept' := writeIdx, kept;
      if w.value.at > cutoff {
        KeepElement(i, writeIdx, w, kept);
        writeIdx' := writeIdx + 1;
        kept' := kept + [w.value];
      }
    }

    /** Zeroes the slots that removed elements occupied. */
    method ClearFrom(writeIdx: nat, n: nat, ghost kept: seq<Elem>)
      requires writeIdx == |kept| && n == |contents| && Compacted(kept, n)
      modifies buf
      ensures forall p :: 0 <= p < buf.Length ==>
        buf[p] == var o := Offset(p); if o < writeIdx then Some(kept[o]) else Zero
    {
      var i := writeIdx;
      while i < n
        invariant writeIdx <= i <= n
        invariant forall p :: 0 <= p < buf.Length ==>
          var o := Offset(p);
          (o < writeIdx ==> buf[p] == Some(kept[o])) && (writeIdx <= o < i || o >= n ==> buf[p] == Zero)
      {
        WrapIs(head + i, buf.Length);
        buf[(head + i) % buf.Length] := Zero;
        i := i + 1;
      }
    }
  }
}
