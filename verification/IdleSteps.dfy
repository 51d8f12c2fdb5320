/** The idle workers of the protocol as the contents of an idle container. */
module IdleSteps {
  import opened IdleSpec
  import opened Protocol
  import opened Invariant
  import opened Steps
  import opened Safety

  predicate Known(idle: seq<Obj>, lastActive: seq<int>) {
    forall i :: 0 <= i < |idle| ==> idle[i] < |lastActive|
  }

  /** Each idle worker with its last-active time. */
  function Dated(idle: seq<Obj>, lastActive: seq<int>): (q: seq<Elem>)
    requires Known(idle, lastActive)
    ensures |q| == |idle| && forall i :: 0 <= i < |q| ==> q[i] == Elem(idle[i], lastActive[idle[i]])
  {
    seq(|idle|, i requires 0 <= i < |idle| => Elem(idle[i], lastActive[idle[i]]))
  }

  lemma IdleKnown(c: Config, s: State)
    requires Inv(c, s)
    ensures Known(s.idle, s.lastActive)
  {
  }

  lemma {:induction false} LiveIsKeepLive(idle: seq<Obj>, lastActive: seq<int>, now: int, expiry: int)
    requires Known(idle, lastActive)
    ensures Known(LiveIdle(idle, lastActive, now - expiry), lastActive)
    ensures Dated(LiveIdle(idle, lastActive, now - expiry), lastActive) == KeepLive(Dated(idle, lastActive), now, expiry)
  {
    if idle != [] {
      var rest, o := idle[..|idle| - 1], idle[|idle| - 1];
      assert o < |lastActive|;
      LiveIsKeepLive(rest, lastActive, now, expiry);
      var live := LiveIdle(rest, lastActive, now - expiry);
      assert idle == rest + [o];
      DatedAppend(rest, o, lastActive);
      DatedAppend(live, o, lastActive);
      KeepLiveAppend(Dated(rest, lastActive), Elem(o, lastActive[o]), now, expiry);
    }
  }

  lemma DatedAppend(idle: seq<Obj>, o: Obj, lastActive: seq<int>)
    requires Known(idle, lastActive) && o < |lastActive|
    ensures Known(idle + [o], lastActive) && Dated(idle + [o], lastActive) == Dated(idle, lastActive) + [Elem(o, lastActive[o])]
  {
  }

  lemma KeepLiveAppend(q: seq<Elem>, e: Elem, now: int, expiry: int)
    ensures KeepLive(q + [e], now, expiry) == KeepLive(q, now, expiry) + if e.at > now - expiry then [e] else []
  {
    assert (q + [e])[..|q|] == q;
  }

  /** The cleaner's step is RemoveExpired on the container. */
  lemma CleanIsRemoveExpired(c: Config, s: State, now: int, expiry: int)
    requires c.Valid() && Reachable(c, s)
    ensures var t := Apply(c, s, Clean(now - expiry));
      Known(s.idle, s.lastActive) && Known(t.idle, t.lastActive)
      && Dated(t.idle, t.lastActive) == KeepLive(Dated(s.idle, s.lastActive), now, expiry)
  {
    ReachableInv(c, s);
    IdleKnown(c, s);
    CleanKeepsLive(s, now, expiry);
  }

  lemma CleanKeepsLive(s: State, now: int, expiry: int)
    requires Known(s.idle, s.lastActive)
    ensures var t := CleanApply(s, now - expiry);
      Known(t.idle, t.lastActive) && Dated(t.idle, t.lastActive) == KeepLive(Dated(s.idle, s.lastActive), now, expiry)
  {
    LiveIsKeepLive(s.idle, s.lastActive, now, expiry);
  }

  /** The scaler's pick is a Pop: one member leaves, or the container was empty. */
  lemma PickIsPop(c: Config, s: State, i: nat)
    requires c.Valid() && Reachable(c, s) && PopEnabled(s, i)
    ensures var t := PopApply(s, i);
      Known(s.idle, s.lastActive) && Known(t.idle, t.lastActive)
      && var q, q' := Dated(s.idle, s.lastActive), Dated(t.idle, t.lastActive);
         if q == [] then q' == [] else i < |q| && t.scaler.obj == q[i].id && q' == q[..i] + q[i + 1..]
  {
    ReachableInv(c, s);
    IdleKnown(c, s);
  }

  /** A park is Add, with the time of the worker's last task. */
  lemma ParkIsAdd(c: Config, s: State, g: Gid, now: int, panics: bool)
    requires c.Valid() && Reachable(c, s) && WorkEnabled(c, s, g) && s.gors[g].pc.ParkIdle?
    ensures var t, o := WorkStep(c, s, g, now, panics), s.gors[g].obj;
      Known(s.idle, s.lastActive) && Known(t.idle, t.lastActive)
      && Dated(t.idle, t.lastActive) == Dated(s.idle, s.lastActive) + [Elem(o, s.lastActive[o])]
  {
    ReachableInv(c, s);
    IdleKnown(c, s);
  }

  /**
   The environment is not restricted: calls and cleanings happen at any time, a decision may see any medians, queue
   depth and eligibility, any idle worker may be picked, and neither clock nor panic limits a worker's step.
   */
  lemma EnvironmentIsFree(c: Config, s: State, a: Action)
    requires c.Valid() && Reachable(c, s)
    ensures a.Call? || a.Clean? ==> Enabled(c, s, a)
    ensures a.Decide? && s.scaler.SawBacklog? && a.submitMed >= 0.0 && a.consumeMed >= 0.0 && a.exitMed >= 0.0 ==> Enabled(c, s, a)
    ensures a.PopIdle? && s.scaler.Spawn? && s.scaler.left > 0 && (s.idle == [] || a.i < |s.idle|) ==> Enabled(c, s, a)
    ensures forall g, now, panics :: Enabled(c, s, Work(g, now, panics)) <==> Enabled(c, s, Work(g, 0, false))
    ensures a.CloseStep? && s.closer != ChannelShut && s.bufOwner.None? ==> Enabled(c, s, a)
  {
    ReachableInv(c, s);
    IdleKnown(c, s);
    NothingRestricts(c, s, a);
  }

  lemma NothingRestricts(c: Config, s: State, a: Action)
    requires c.Valid() && Known(s.idle, s.lastActive) && |s.lastActive| == |s.owner|
    ensures a.Call? || a.Clean? ==> Enabled(c, s, a)
    ensures a.Decide? && s.scaler.SawBacklog? && a.submitMed >= 0.0 && a.consumeMed >= 0.0 && a.exitMed >= 0.0 ==> Enabled(c, s, a)
    ensures a.PopIdle? && s.scaler.Spawn? && s.scaler.left > 0 && (s.idle == [] || a.i < |s.idle|) ==> Enabled(c, s, a)
    ensures forall g, now, panics :: Enabled(c, s, Work(g, now, panics)) <==> Enabled(c, s, Work(g, 0, false))
    ensures a.CloseStep? && s.closer != ChannelShut && s.bufOwner.None? ==> Enabled(c, s, a)
  {
  }

  predicate TouchesIdle(s: State, a: Action) {
    a.Clean? || a.PopIdle? || (a.Work? && a.g < |s.gors| && s.gors[a.g].pc.ParkIdle?)
  }

  lemma SubKeepsIdle(c: Config, s: State, id: Id)
    requires SubEnabled(c, s, id)
    ensures SubStep(c, s, id).idle == s.idle
  {
  }

  lemma WorkKeepsIdle(c: Config, s: State, g: Gid, now: int, panics: bool)
    requires WorkEnabled(c, s, g) && !s.gors[g].pc.ParkIdle?
    ensures WorkStep(c, s, g, now, panics).idle == s.idle
  {
  }

  lemma SameIdle(c: Config, s: State, a: Action)
    requires Enabled(c, s, a) && !TouchesIdle(s, a)
    ensures Apply(c, s, a).idle == s.idle
  {
    if a.Sub? {
      SubKeepsIdle(c, s, a.id);
    } else if a.Work? {
      WorkKeepsIdle(c, s, a.g, a.now, a.panics);
    }
  }

  /** No other action of any agent changes the container or a date in it. */
  lemma OthersLeaveIdle(c: Config, s: State, a: Action)
    requires c.Valid() && Reachable(c, s) && Enabled(c, s, a) && !TouchesIdle(s, a)
    ensures var t := Apply(c, s, a);
      Known(s.idle, s.lastActive) && Known(t.idle, t.lastActive) && Dated(t.idle, t.lastActive) == Dated(s.idle, s.lastActive)
  {
    SameIdle(c, s, a);
    var t := Apply(c, s, a);
    forall i | 0 <= i < |s.idle|
      ensures s.idle[i] < |s.lastActive| <= |t.lastActive| && t.lastActive[s.idle[i]] == s.lastActive[s.idle[i]]
    {
      IdleTimestampsFrozen(c, s, a, s.idle[i]);
    }
  }
}
