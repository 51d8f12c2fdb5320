/** The slice container: a window on a backing array, filtered in place through an aliasing slice. */
module SliceImpl {
  import opened IdleSpec

  class Slice {
    var backing: array<Opt>
    var start: nat   // the window is backing[start .. start + count]
    var count: nat
    var length: int
    ghost var contents: seq<Elem>  // oldest first

    ghost predicate Valid()
      reads this, backing
    {
      start + count <= backing.Length && length == count == |contents|
      && forall i :: 0 <= i < count ==> backing[start + i] == Some(contents[i])
    }

    constructor ()
      ensures Valid() && contents == [] && fresh(backing)
    {
      backing := new Opt[0](_ => Zero);
      start, count, length := 0, 0, 0;
      contents := [];
    }

    method Len() returns (n: int)
      requires Valid()
      ensures n == |contents|
    {
      n := length;
    }

    /** append: a new backing array when the window reaches the end of the old one. */
    method Add(w: Elem)
      requires Valid()
      modifies this, backing
      ensures Valid() && contents == old(contents) + [w] && (backing == old(backing) || fresh(backing))
    {
      if start + count == backing.Length {
        var bigger := new Opt[2 * count + 1](_ => Zero);
        var i := 0;
        while i < count
          modifies bigger
          invariant i <= count
          invariant forall j :: 0 <= j < i ==> bigger[j] == Some(contents[j])
        {
          bigger[i] := backing[start + i];
          i := i + 1;
        }
        backing, start := bigger, 0;
      }
      backing[start + count] := Some(w);
      count := count + 1;
      length := length + 1;
      contents := contents + [w];
    }

    /** Removes and returns the oldest element: its slot is zeroed and the window moves past it. */
    method Pop() returns (w: Opt)
      requires Valid()
      modifies this, backing
      ensures Valid() && backing == old(backing)
      ensures old(contents) == [] ==> w == Zero && contents == []
      ensures old(contents) != [] ==> w == Some(old(contents)[0]) && contents == old(contents)[1..]
    {
      if length == 0 {
        return Zero;
      }
      w := backing[start];
      backing[start] := Zero;
      start := start + 1;
      count := count - 1;
      length := length - 1;
      contents := contents[1..];
    }

    /** The survivors overwrite the front of the same backing array while it is being scanned. */
    method FilterInPlace(cutoff: int, ghost now: int, ghost expiry: int) returns (survivors: nat)
      requires Valid() && cutoff == now - expiry
      modifies backing
      ensures survivors == |KeepLive(contents, now, expiry)| <= count
      ensures forall j :: 0 <= j < survivors ==> backing[start + j] == Some(KeepLive(contents, now, expiry)[j])
    {
      survivors := 0;
      ghost var kept: seq<Elem> := [];
      var i := 0;
      while i < count
        invariant Filtered(kept, i) && survivors == |kept| && kept == KeepLive(contents[..i], now, expiry)
      {
        KeepLiveStep(contents, i, now, expiry);
        survivors, kept := Consider(i, survivors, cutoff, kept);
        i := i + 1;
      }
      assert contents[..count] == contents;
    }

    /** The survivors so far are at the front of the window and the elements from i on are still in place. */
    ghost predicate Filtered(kept: seq<Elem>, i: nat)
      reads this, backing
    {
      start + count <= backing.Length && |kept| <= i <= count == |contents|
      && (forall j :: 0 <= j < |kept| ==> backing[start + j] == Some(kept[j]))
      && (forall j :: i <= j < count ==> backing[start + j] == Some(contents[j]))
    }

    /** One round of the filter: element i is appended to the survivors unless it is expired. */
    method Consider(i: nat, survivors: nat, cutoff: int, ghost kept: seq<Elem>) returns (survivors': nat, ghost kept': seq<Elem>)
      requires Filtered(kept, i) && survivors == |kept| && i < count
      modifies backing
      ensures Filtered(kept', i + 1) && survivors' == |kept'|
      ensures kept' == kept + if contents[i].at > cutoff then [contents[i]] else []
    {
      var w := backing[start + i];
      assert w == Some(contents[i]);
      survivors', kept' := survivors, kept;
      if w.value.at > cutoff {
        backing[start + survivors] := w;
        survivors' := survivors + 1;
        kept' := kept + [w.value];
      }
    }

    method RemoveExpired(now: int, expiry: int) returns (removed: int)
      requires Valid()
      modifies this, backing
      ensures Valid() && backing == old(backing)
      ensures contents == KeepLive(old(contents), now, expiry)
      ensures removed == |old(contents)| - |contents|
      ensures start == old(start) && start + old(count) <= backing.Length
      ensures forall i :: start + count <= i < start + old(count) ==> backing[i] == Zero
    {
      if length == 0 {
        return 0;
      }
      var originalLen := count;
      var survivors := FilterInPlace(now - expiry, now, expiry);
      removed := originalLen - survivors;
      if removed > 0 {
        var i := survivors;
        while i < originalLen
          modifies backing
          invariant survivors <= i <= originalLen
          invariant forall j :: 0 <= j < survivors ==> backing[start + j] == Some(KeepLive(contents, now, expiry)[j])
          invariant forall j :: start + survivors <= j < start + i ==> backing[j] == Zero
        {
          backing[start + i] := Zero;
          i := i + 1;
        }
        count := survivors;
        length := length - removed;
      }
      contents := KeepLive(contents, now, expiry);
    }
  }
}
