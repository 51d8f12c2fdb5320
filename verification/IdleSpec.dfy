/** What the idle containers promise, over sequences of dated elements. */
module IdleSpec {

  /** An idle worker with its last-active timestamp. */
  datatype Elem = Elem(id: nat, at: int)

  /** The zero value of the element type, or an element. */
  datatype Opt = Zero | Some(value: Elem)

  /** The two expiry tests of the containers: DatedTime + expiry against now, and DatedTime against now - expiry. */
  predicate ExpiredByDeadline(e: Elem, now: int, expiry: int) {
    !(e.at + expiry > now)
  }

  predicate ExpiredByCutoff(e: Elem, now: int, expiry: int) {
    !(e.at > now - expiry)
  }

  /** The survivors of RemoveExpired, in order. */
  function KeepLive(q: seq<Elem>, now: int, expiry: int): seq<Elem> {
    if q == [] then []
    else
      var e := q[|q| - 1];
      KeepLive(q[..|q| - 1], now, expiry) + (if ExpiredByCutoff(e, now, expiry) then [] else [e])
  }

  /** One more element of the scan. */
  lemma KeepLiveStep(q: seq<Elem>, i: nat, now: int, expiry: int)
    requires i < |q|
    ensures KeepLive(q[..i + 1], now, expiry)
      == KeepLive(q[..i], now, expiry) + if ExpiredByCutoff(q[i], now, expiry) then [] else [q[i]]
  {
    assert q[..i + 1][..i] == q[..i];
  }

  predicate SortedByTime(q: seq<Elem>) {
    forall i, j :: 0 <= i < j < |q| ==> q[i].at <= q[j].at
  }

  /** The number of leading elements dated at or before k, in a time-sorted sequence. */
  function RankAfter(q: seq<Elem>, k: int): (r: nat)
    ensures r <= |q|
  {
    if q == [] || q[0].at > k then 0 else 1 + RankAfter(q[1..], k)
  }

  /** Stable insertion: after every element with the same or an earlier time. */
  function InsertStable(q: seq<Elem>, e: Elem): seq<Elem> {
    q[..RankAfter(q, e.at)] + [e] + q[RankAfter(q, e.at)..]
  }

  // ---- the contract that all five containers share, on the multiset of elements ----

  /** RemoveExpired drops every copy of the expired elements and nothing else. */
  ghost predicate Purged(m: multiset<Elem>, m': multiset<Elem>, now: int, expiry: int) {
    forall e :: m'[e] == if ExpiredByDeadline(e, now, expiry) then 0 else m[e]
  }

  /** Some copies of expired elements have been dropped and nothing else. */
  ghost predicate PurgedPart(m: multiset<Elem>, m': multiset<Elem>, now: int, expiry: int) {
    forall e :: m'[e] <= m[e] && (!ExpiredByDeadline(e, now, expiry) ==> m'[e] == m[e])
  }
}
