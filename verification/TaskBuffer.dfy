/** The chunked overflow buffer: a linked list of fixed-size chunks that refines a FIFO queue. */
module TaskBuffer {
  import opened TaskBufferSpec

  const CHUNK_SIZE := 4096

  datatype Slot<T> = Nil | Task(value: T)

  lemma BatchIs<T>(q: seq<T>, n: nat, cap: nat)
    requires n <= |q| && n <= cap && (n < cap ==> n == |q|)
    ensures TakeBatch(q, cap) == q[..n] && LeaveBatch(q, cap) == q[n..]
  {
  }

  lemma Shift<T>(q: seq<T>, n: nat, gone: seq<T>)
    requires n < |q|
    ensures q[n..][0] == q[n] && q[n..][1..] == q[n + 1..] && gone + q[..n] + [q[n]] == gone + q[..n + 1]
  {
  }

  /** A node: the task slots are part of the node itself. */
  class TaskChunk<T> {
    var tasks: seq<Slot<T>>
    var next: TaskChunk?<T>

    constructor ()
      ensures Blank()
    {
      tasks := seq(CHUNK_SIZE, _ => Nil);
      next := null;
    }

    /** As sync.Pool must hand it out: unlinked and all nil. */
    ghost predicate Blank()
      reads this
    {
      next == null && |tasks| == CHUNK_SIZE && forall j :: 0 <= j < CHUNK_SIZE ==> tasks[j] == Nil
    }
  }

  class ChunkedTaskBuffer<T> {
    var headChunk: TaskChunk?<T>
    var tailChunk: TaskChunk?<T>
    var headIdx: nat
    var tailIdx: nat
    var chunkLen: int
    var overflowClosed: bool
    var chunkPool: set<TaskChunk<T>>

    ghost var spine: seq<TaskChunk<T>>  // the chunks from head to tail
    ghost var contents: seq<T>          // the buffered tasks, oldest first
    ghost var pushed: seq<T>            // every task ever accepted
    ghost var removed: seq<T>           // every task ever forwarded or popped

    /** The live chunks are distinct, linked in order, and disjoint from the pooled ones. */
    ghost predicate Linked()
      reads this, spine
    {
      (forall i, j :: 0 <= i < j < |spine| ==> spine[i] != spine[j])
      && (forall i :: 0 <= i < |spine| ==> spine[i] !in chunkPool && |spine[i].tasks| == CHUNK_SIZE)
      && (forall i :: 0 <= i < |spine| - 1 ==> spine[i].next == spine[i + 1])
    }

    /** The indices delimit the contents within the chunks; the tail chunk has at least used slots behind tailIdx. */
    ghost predicate Delimited(used: nat)
      reads this, spine
    {
      if spine == [] then
        headChunk == null && tailChunk == null && headIdx == 0 && tailIdx == 0 && contents == []
      else
        headChunk == spine[0] && tailChunk == spine[|spine| - 1] && tailChunk.next == null
        && headIdx <= CHUNK_SIZE && used <= tailIdx <= CHUNK_SIZE
        && headIdx + |contents| == (|spine| - 1) * CHUNK_SIZE + tailIdx
    }

    /** What position p of the chunks, counted from the start of the head chunk, must hold. */
    ghost function Expected(p: int): Slot<T>
      reads this
    {
      if headIdx <= p < headIdx + |contents| then Task(contents[p - headIdx]) else Nil
    }

    /** The slots hold the contents in order, and nil elsewhere. */
    ghost predicate Filled()
      reads this, spine
    {
      forall i, j :: 0 <= i < |spine| && 0 <= j < CHUNK_SIZE && j < |spine[i].tasks| ==>
        spine[i].tasks[j] == Expected(i * CHUNK_SIZE + j)
    }

    ghost predicate PoolClean()
      reads this, chunkPool
    {
      forall c :: c in chunkPool ==> c.Blank()
    }

    ghost predicate ValidWith(used: nat)
      reads this, spine, chunkPool
    {
      Linked() && Delimited(used) && Filled() && PoolClean()
      && chunkLen == |contents| <= MAX_CHUNK_LEN
      && pushed == removed + contents
    }

    ghost predicate Valid()
      reads this, spine, chunkPool
    {
      ValidWith(1)
    }

    /** Every chunk that the buffer refers to, live or pooled. */
    ghost function Chunks(): set<TaskChunk<T>>
      reads this
    {
      (set c | c in spine) + chunkPool
    }

    constructor ()
      ensures Valid() && contents == [] && pushed == [] && removed == [] && !overflowClosed
      ensures spine == [] && chunkPool == {}
    {
      headChunk, tailChunk, headIdx, tailIdx, chunkLen := null, null, 0, 0, 0;
      overflowClosed, chunkPool := false, {};
      spine, contents, pushed, removed := [], [], [], [];
    }

    method Len() returns (n: int)
      requires Valid()
      ensures n == |contents|
    {
      n := chunkLen;
    }

    method Close()
      requires Valid()
      modifies this`overflowClosed
      ensures Valid() && overflowClosed
    {
      overflowClosed := true;
    }

    /** sync.Pool.Get: any pooled chunk, or a new one. */
    method GetChunk() returns (c: TaskChunk<T>)
      requires Valid()
      modifies this`chunkPool
      ensures Valid() && c.Blank() && c !in spine
      ensures chunkPool == old(chunkPool) - {c}
      ensures c in old(chunkPool) || fresh(c)
    {
      if * {
        if d :| d in chunkPool {
          c := d;
          chunkPool := chunkPool - {c};
          return;
        }
      }
      c := new TaskChunk<T>();
    }

    /** The first two branches of pushTail: the tail chunk gets a free slot. */
    method MakeRoom()
      requires Valid()
      modifies this, spine, chunkPool
      ensures ValidWith(0) && spine != [] && tailIdx < CHUNK_SIZE
      ensures contents == old(contents) && pushed == old(pushed) && removed == old(removed)
      ensures overflowClosed == old(overflowClosed) && fresh(Chunks() - old(Chunks()))
    {
      if tailChunk == null {
        var c := GetChunk();
        tailChunk, headChunk, tailIdx, headIdx := c, c, 0, 0;
        spine := [c];
      } else if tailIdx >= CHUNK_SIZE {
        var c := GetChunk();
        AppendChunk(c);
      }
    }

    method AppendChunk(c: TaskChunk<T>)
      requires Valid() && spine != [] && tailIdx == CHUNK_SIZE && c.Blank() && c !in spine && c !in chunkPool
      modifies this, spine
      ensures ValidWith(0) && spine == old(spine) + [c] && tailIdx == 0
      ensures contents == old(contents) && pushed == old(pushed) && removed == old(removed)
      ensures overflowClosed == old(overflowClosed) && chunkPool == old(chunkPool)
    {
      tailChunk.next := c;
      tailChunk, tailIdx := c, 0;
      spine := spine + [c];
    }

    /** The rest of pushTail: the free slot at tailIdx takes the task. */
    method StoreTail(task: T)
      requires ValidWith(0) && spine != [] && tailIdx < CHUNK_SIZE && |contents| < MAX_CHUNK_LEN
      modifies this, tailChunk
      ensures Valid() && contents == old(contents) + [task]
      ensures pushed == old(pushed) + [task] && removed == old(removed)
      ensures overflowClosed == old(overflowClosed) && spine == old(spine) && chunkPool == old(chunkPool)
    {
      ghost var last, at := |spine| - 1, tailIdx;
      tailChunk.tasks := tailChunk.tasks[tailIdx := Task(task)];
      tailIdx := tailIdx + 1;
      chunkLen := chunkLen + 1;
      contents, pushed := contents + [task], pushed + [task];
      forall i, j | 0 <= i < |spine| && 0 <= j < CHUNK_SIZE && j < |spine[i].tasks|
        ensures spine[i].tasks[j] == Expected(i * CHUNK_SIZE + j)
      {
        assert (i == last && j == at) || spine[i].tasks[j] == old(spine[i].tasks[j]) == old(Expected(i * CHUNK_SIZE + j));
      }
    }

    /** Appends a task after the last one, in a new chunk when the tail chunk is full. */
    method PushTail(task: T)
      requires Valid() && |contents| < MAX_CHUNK_LEN
      modifies this, spine, chunkPool
      ensures Valid() && contents == old(contents) + [task]
      ensures pushed == old(pushed) + [task] && removed == old(removed)
      ensures overflowClosed == old(overflowClosed) && fresh(Chunks() - old(Chunks()))
    {
      MakeRoom();
      StoreTail(task);
    }

    /** A used-up head chunk is all nil, and the contents fill the later chunks from their start. */
    lemma UsedUp()
      requires Valid() && spine != [] && (headIdx == CHUNK_SIZE || contents == [])
      ensures contents == [] ==> |spine| == 1
      ensures forall j :: 0 <= j < CHUNK_SIZE ==> spine[0].tasks[j] == Nil
      ensures forall i, j :: 1 <= i < |spine| && 0 <= j < CHUNK_SIZE ==>
        spine[i].tasks[j] == if (i - 1) * CHUNK_SIZE + j < |contents| then Task(contents[(i - 1) * CHUNK_SIZE + j]) else Nil
    {
      forall j | 0 <= j < CHUNK_SIZE
        ensures spine[0].tasks[j] == Nil
      {
        assert spine[0].tasks[j] == Expected(0 * CHUNK_SIZE + j);
      }
      forall i, j | 1 <= i < |spine| && 0 <= j < CHUNK_SIZE
        ensures spine[i].tasks[j] == if (i - 1) * CHUNK_SIZE + j < |contents| then Task(contents[(i - 1) * CHUNK_SIZE + j]) else Nil
      {
        assert spine[i].tasks[j] == Expected(i * CHUNK_SIZE + j);
      }
    }

    /** The exhausted or drained head chunk goes back to the pool, unlinked. */
    method DropHead()
      requires Valid() && spine != [] && (headIdx == CHUNK_SIZE || contents == [])
      modifies this`headChunk, this`tailChunk, this`headIdx, this`tailIdx, this`chunkPool, this`spine, headChunk`next
      ensures Valid() && spine == old(spine[1..]) && headIdx == 0 && chunkPool == old(chunkPool) + {old(headChunk)}
    {
      UsedUp();
      ghost var before := spine;
      var next := headChunk.next;
      headChunk.next := null;
      chunkPool := chunkPool + {headChunk};
      headChunk := next;
      headIdx := 0;
      spine := spine[1..];
      if headChunk == null {
        tailChunk := null;
        tailIdx := 0;
      }
      Refilled(before);
    }

    /** Without its used-up head chunk the list holds the contents from its start. */
    lemma Refilled(before: seq<TaskChunk<T>>)
      requires before != [] && spine == before[1..] && headIdx == 0
      requires forall i, j :: 1 <= i < |before| && 0 <= j < CHUNK_SIZE && j < |before[i].tasks| ==>
        before[i].tasks[j] == if (i - 1) * CHUNK_SIZE + j < |contents| then Task(contents[(i - 1) * CHUNK_SIZE + j]) else Nil
      ensures Filled()
    {
      forall i, j | 0 <= i < |spine| && 0 <= j < CHUNK_SIZE && j < |spine[i].tasks|
        ensures spine[i].tasks[j] == Expected(i * CHUNK_SIZE + j)
      {
        assert spine[i] == before[i + 1];
      }
    }

    /** The oldest task, without removing it; used-up chunks at the head are recycled on the way. */
    method PeekHead() returns (r: Slot<T>)
      requires Valid()
      modifies this, spine
      ensures Valid() && contents == old(contents) && pushed == old(pushed) && removed == old(removed)
      ensures overflowClosed == old(overflowClosed) && Chunks() == old(Chunks())
      ensures contents == [] ==> r == Nil && spine == []
      ensures contents != [] ==> r == Task(contents[0]) && headChunk != null && headIdx < CHUNK_SIZE
      ensures (set c | c in spine) <= old(set c | c in spine)
    {
      if headChunk == null {
        return Nil;
      }
      if headIdx >= CHUNK_SIZE {
        DropHead();
        if headChunk == null {
          return Nil;
        }
      }
      if headChunk == tailChunk && headIdx >= tailIdx {
        DropHead();
        return Nil;
      }
      r := headChunk.tasks[headIdx];
      assert r == Expected(0 * CHUNK_SIZE + headIdx);
    }

    /** Clears the head slot and moves past it. */
    method TakeHead()
      requires Valid() && contents != [] && headIdx < CHUNK_SIZE
      modifies this, headChunk
      ensures Valid() && contents == old(contents[1..])
      ensures pushed == old(pushed) && removed == old(removed + [contents[0]])
      ensures overflowClosed == old(overflowClosed) && spine == old(spine) && chunkPool == old(chunkPool)
    {
      ghost var at := headIdx;
      headChunk.tasks := headChunk.tasks[headIdx := Nil];
      headIdx := headIdx + 1;
      chunkLen := chunkLen - 1;
      removed := removed + [contents[0]];
      contents := contents[1..];
      forall i, j | 0 <= i < |spine| && 0 <= j < CHUNK_SIZE && j < |spine[i].tasks|
        ensures spine[i].tasks[j] == Expected(i * CHUNK_SIZE + j)
      {
        assert (i == 0 && j == at) || spine[i].tasks[j] == old(spine[i].tasks[j]) == old(Expected(i * CHUNK_SIZE + j));
      }
    }

    /** Removes and returns the oldest task. */
    method PopHead() returns (r: Slot<T>)
      requires Valid()
      modifies this, spine
      ensures Valid() && overflowClosed == old(overflowClosed) && pushed == old(pushed)
      ensures old(contents) == [] ==> r == Nil && contents == [] && removed == old(removed)
      ensures old(contents) != [] ==>
        r == Task(old(contents)[0]) && contents == old(contents)[1..] && removed == old(removed) + [old(contents)[0]]
      ensures Chunks() == old(Chunks()) && (set c | c in spine) <= old(set c | c in spine)
    {
      r := PeekHead();
      if r != Nil {
        TakeHead();
      }
    }

    /** One round of PopBatch: the oldest task, if any, goes to dst[n]. */
    method PopInto(dst: array<Slot<T>>, n: nat) returns (ok: bool)
      requires Valid() && n < dst.Length
      modifies this, spine, dst
      ensures Valid() && overflowClosed == old(overflowClosed) && pushed == old(pushed)
      ensures ok == (old(contents) != [])
      ensures ok ==> dst[..] == old(dst[..])[n := Task(old(contents)[0])]
      ensures ok ==> contents == old(contents)[1..] && removed == old(removed) + [old(contents)[0]]
      ensures !ok ==> dst[..] == old(dst[..]) && contents == [] && removed == old(removed)
      ensures Chunks() == old(Chunks()) && (set c | c in spine) <= old(set c | c in spine)
    {
      var t := PopHead();
      ok := t != Nil;
      if ok {
        dst[n] := t;
      }
    }

    /** Fills dst with the oldest tasks, in order, and returns how many there were. */
    method PopBatch(dst: array<Slot<T>>) returns (n: nat)
      requires Valid()
      modifies this, spine, dst
      ensures Valid() && overflowClosed == old(overflowClosed) && pushed == old(pushed)
      ensures n == |TakeBatch(old(contents), dst.Length)| <= dst.Length
      ensures forall i :: 0 <= i < n ==> dst[i] == Task(TakeBatch(old(contents), dst.Length)[i])
      ensures contents == LeaveBatch(old(contents), dst.Length)
      ensures removed == old(removed) + TakeBatch(old(contents), dst.Length)
      ensures Chunks() == old(Chunks())
    {
      ghost var q, gone := contents, removed;
      n := 0;
      while n < dst.Length
        invariant Valid() && overflowClosed == old(overflowClosed) && pushed == old(pushed)
        invariant n <= dst.Length && n <= |q|
        invariant contents == q[n..] && removed == gone + q[..n]
        invariant forall i :: 0 <= i < n ==> dst[i] == Task(q[i])
        invariant Chunks() == old(Chunks()) && (set c | c in spine) <= old(set c | c in spine)
      {
        var ok := PopInto(dst, n);
        if !ok {
          break;
        }
        Shift(q, n, gone);
        n := n + 1;
      }
      BatchIs(q, n, dst.Length);
    }

    /**
     Appends the task and offers the oldest task to the handoff shard; only an accepted offer removes
     it, so a failed forward never moves an older task behind a newer one.
     */
    method PushAndForward(task: T, tryForward: T -> bool) returns (result: PushResult, forwarded: Slot<T>)
      requires Valid()
      modifies this, spine, chunkPool
      ensures Valid() && overflowClosed == old(overflowClosed)
      ensures result == PushOutcome(|old(contents)|, overflowClosed)
      ensures result == BufferClosed <==> overflowClosed
      ensures result == BufferFull <==> !overflowClosed && |old(contents)| >= 100_000
      ensures result != BufferAccepted ==>
        contents == old(contents) && pushed == old(pushed) && removed == old(removed) && forwarded == Nil
      ensures result == BufferAccepted ==>
        var q := old(contents) + [task];
        pushed == old(pushed) + [task]
        && forwarded == (if tryForward(q[0]) then Task(q[0]) else Nil)
        && contents == (if tryForward(q[0]) then q[1..] else q)
        && removed == (if tryForward(q[0]) then old(removed) + [q[0]] else old(removed))
      ensures fresh(Chunks() - old(Chunks()))
    {
      if overflowClosed {
        return BufferClosed, Nil;
      }
      if chunkLen >= MAX_CHUNK_LEN {
        return BufferFull, Nil;
      }
      PushTail(task);
      forwarded := Nil;
      var t := PeekHead();
      if t != Nil && tryForward(t.value) {
        var popped := PopHead();
        forwarded := popped;
      }
      result := BufferAccepted;
    }
  }
}
