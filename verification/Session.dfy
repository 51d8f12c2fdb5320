/** The session driver of the stress-test host: Start in order, Run in order, End in reverse. */
module Session {
  import opened DepGraph
  import opened Planner

  /** A call into a plugin. */
  datatype Call = Start(name: Name, args: seq<string>) | Run(name: Name, args: seq<string>) | End(name: Name)

  datatype Event = Event(call: Call, ok: bool)

  /** The plugins' code: whether a call succeeds, given everything that happened before it. */
  type Plugins = (seq<Event>, Call) -> bool

  function StartCalls(segs: seq<Segment>): seq<Call> {
    seq(|segs|, i requires 0 <= i < |segs| => Start(segs[i].name, segs[i].args))
  }

  function RunCalls(segs: seq<Segment>): seq<Call> {
    seq(|segs|, i requires 0 <= i < |segs| => Run(segs[i].name, segs[i].args))
  }

  ghost predicate AllOk(events: seq<Event>) {
    forall i :: 0 <= i < |events| ==> events[i].ok
  }

  /** The calls were made in order up to the first failure, or all of them. */
  ghost predicate Phase(events: seq<Event>, calls: seq<Call>) {
    |events| <= |calls|
    && (forall i :: 0 <= i < |events| ==> events[i].call == calls[i])
    && (forall i :: 0 <= i < |events| - 1 ==> events[i].ok)
    && (|events| < |calls| ==> !AllOk(events))
  }

  /** One End for each successful Start, in reverse, whatever the other Ends return. */
  ghost predicate Closed(ends: seq<Event>, starts: seq<Event>) {
    var n := if AllOk(starts) then |starts| else |starts| - 1;
    |ends| == n && forall i :: 0 <= i < n ==> ends[i].call == End(starts[n - 1 - i].call.name)
  }

  /** A session's log: the three phases, and the exit code that they give. */
  ghost predicate Proper(plan: seq<Segment>, lifecycle: set<Name>, starts: seq<Event>, runs: seq<Event>, ends: seq<Event>, code: int) {
    Phase(starts, StartCalls(Only(plan, lifecycle)))
    && (if AllOk(starts) then Phase(runs, RunCalls(plan)) else runs == [])
    && Closed(ends, starts)
    && (code == 0 || code == 1)
    && (code == 0 <==> AllOk(starts) && AllOk(runs) && AllOk(ends))
  }

  /** Every outcome in the log is what the plugin's code gave at that point. */
  ghost predicate Faithful(log: seq<Event>, plugins: Plugins) {
    forall k :: 0 <= k < |log| ==> log[k].ok == plugins(log[..k], log[k].call)
  }

  lemma AllOkAppend(events: seq<Event>, e: Event)
    ensures AllOk(events + [e]) <==> AllOk(events) && e.ok
  {
    if AllOk(events + [e]) {
      assert (events + [e])[|events|].ok;
      forall i | 0 <= i < |events|
        ensures events[i].ok
      {
        assert (events + [e])[i].ok;
      }
    }
  }

  class Host {
    const plugins: Plugins
    var log: seq<Event>

    ghost predicate Valid()
      reads this
    {
      Faithful(log, plugins)
    }

    constructor (plugins: Plugins)
      ensures this.plugins == plugins && log == [] && Valid()
    {
      this.plugins, log := plugins, [];
    }

    method Invoke(call: Call) returns (ok: bool)
      requires Valid()
      modifies this
      ensures Valid() && log == old(log) + [Event(call, ok)]
    {
      ok := plugins(log, call);
      log := log + [Event(call, ok)];
      assert forall k :: 0 <= k < |log| ==> log[..k] == old(log)[..k] || k == |log| - 1;
      assert log[..|log| - 1] == old(log);
    }

    /** Starts the lifecycle plugins in plan order until one fails. */
    method StartAll(plan: seq<Segment>, lifecycle: set<Name>) returns (code: int, started: seq<Name>, ghost starts: seq<Event>)
      requires Valid()
      modifies this
      ensures Valid() && log == old(log) + starts && Phase(starts, StartCalls(Only(plan, lifecycle)))
      ensures code == if AllOk(starts) then 0 else 1
      ensures |started| == (if AllOk(starts) then |starts| else |starts| - 1)
      ensures forall i :: 0 <= i < |started| ==> started[i] == starts[i].call.name
    {
      code, started, starts := 0, [], [];
      for i := 0 to |plan|
        invariant Valid() && log == old(log) + starts && code == 0 && AllOk(starts)
        invariant |started| == |starts| && forall k :: 0 <= k < |started| ==> started[k] == starts[k].call.name
        invariant Phase(starts, StartCalls(Only(plan[..i], lifecycle))) && |starts| == |Only(plan[..i], lifecycle)|
      {
        assert plan[..i + 1][..i] == plan[..i];
        if plan[i].name !in lifecycle {
          continue;
        }
        var ok := Invoke(Start(plan[i].name, plan[i].args));
        starts := starts + [Event(Start(plan[i].name, plan[i].args), ok)];
        if !ok {
          code := 1;
          StartPrefix(plan, lifecycle, i);
          assert !starts[|starts| - 1].ok;
          return;
        }
        started := started + [plan[i].name];
      }
      assert plan[..|plan|] == plan;
    }

    /** Runs every planned plugin in order until one fails. */
    method RunAll(plan: seq<Segment>) returns (code: int, ghost runs: seq<Event>)
      requires Valid()
      modifies this
      ensures Valid() && log == old(log) + runs && Phase(runs, RunCalls(plan))
      ensures code == if AllOk(runs) then 0 else 1
    {
      code, runs := 0, [];
      for i := 0 to |plan|
        invariant Valid() && log == old(log) + runs && code == 0 && AllOk(runs)
        invariant |runs| == i && Phase(runs, RunCalls(plan[..i]))
      {
        var ok := Invoke(Run(plan[i].name, plan[i].args));
        runs := runs + [Event(Run(plan[i].name, plan[i].args), ok)];
        if !ok {
          assert !runs[|runs| - 1].ok;
          return 1, runs;
        }
      }
    }

    /** Ends the started plugins in reverse; a failing End does not stop the others. */
    method EndAll(started: seq<Name>, code: int) returns (code': int, ghost ends: seq<Event>)
      requires Valid() && (code == 0 || code == 1)
      modifies this
      ensures Valid() && log == old(log) + ends && |ends| == |started|
      ensures forall k :: 0 <= k < |ends| ==> ends[k].call == End(started[|started| - 1 - k])
      ensures code' == if code == 0 && AllOk(ends) then 0 else 1
    {
      code', ends := code, [];
      for i := |started| downto 0
        invariant Valid() && log == old(log) + ends && |ends| == |started| - i
        invariant forall k :: 0 <= k < |ends| ==> ends[k].call == End(started[|started| - 1 - k])
        invariant code' == if code == 0 && AllOk(ends) then 0 else 1
      {
        var ok := Invoke(End(started[i]));
        ghost var before := ends;
        ends := ends + [Event(End(started[i]), ok)];
        AllOkAppend(before, Event(End(started[i]), ok));
        if !ok {
          if code' == 0 {
            code' := 1;
          }
        }
      }
    }

    method ExecSession(plan: seq<Segment>, lifecycle: set<Name>)
      returns (code: int, ghost starts: seq<Event>, ghost runs: seq<Event>, ghost ends: seq<Event>)
      requires Valid()
      modifies this
      ensures Valid() && log == old(log) + starts + runs + ends
      ensures Proper(plan, lifecycle, starts, runs, ends, code)
    {
      var started;
      code, started, starts := StartAll(plan, lifecycle);
      runs := [];
      if code == 0 {
        code, runs := RunAll(plan);
      }
      code, ends := EndAll(started, code);
    }
  }

  // ---- what the plan gives the session ----

  /** log[..i] holds a successful call of that kind to d. */
  ghost predicate RanBefore(runs: seq<Event>, i: nat, d: Name)
    requires i <= |runs|
  {
    exists j :: 0 <= j < i && runs[j].call.Run? && runs[j].call.name == d && runs[j].ok
  }

  /** A plugin runs only after everything it depends on has run successfully. */
  lemma RunsFollowDeps(plan: seq<Segment>, segs: seq<Segment>, reg: Registry, runs: seq<Event>, i: nat, d: Name)
    requires Serves(plan, segs, reg) && Phase(runs, RunCalls(plan))
    requires i < |runs| && DependsOn(reg, runs[i].call.name, d)
    ensures RanBefore(runs, i, d)
  {
    assert Names(plan)[i] == runs[i].call.name;
    DependsBefore(reg, Names(plan), i, d);
    var j :| 0 <= j < i && Names(plan)[j] == d;
    assert runs[j].call == RunCalls(plan)[j];
  }

  /** A successful Start of d before position i. */
  ghost predicate StartedBefore(starts: seq<Event>, i: nat, d: Name)
    requires i <= |starts|
  {
    exists j :: 0 <= j < i && starts[j].call.Start? && starts[j].call.name == d && starts[j].ok
  }

  /** Among lifecycle plugins, a dependency starts first and ends last. */
  lemma StartsFollowDeps(plan: seq<Segment>, segs: seq<Segment>, reg: Registry, lifecycle: set<Name>, starts: seq<Event>, i: nat, d: Name)
    requires Serves(plan, segs, reg) && Phase(starts, StartCalls(Only(plan, lifecycle)))
    requires i < |starts| && d in lifecycle && DependsOn(reg, starts[i].call.name, d)
    ensures StartedBefore(starts, i, d)
  {
    var k := OnlySplit(plan, lifecycle, i);
    assert Names(plan)[k] == starts[i].call.name;
    DependsBefore(reg, Names(plan), k, d);
    var j :| 0 <= j < k && Names(plan)[j] == d;
    OnlyHas(plan[..k], lifecycle, j);
    var l :| 0 <= l < |Only(plan[..k], lifecycle)| && Only(plan[..k], lifecycle)[l] == plan[j];
    assert starts[l].call == StartCalls(Only(plan, lifecycle))[l];
  }

  /** Where the i-th selected segment stands in the plan: the selected ones before it are the first i. */
  lemma {:induction false} OnlySplit(plan: seq<Segment>, asked: set<Name>, i: nat) returns (k: nat)
    requires i < |Only(plan, asked)|
    ensures k < |plan| && plan[k] == Only(plan, asked)[i] && Only(plan[..k], asked) == Only(plan, asked)[..i]
  {
    var rest := plan[..|plan| - 1];
    if i < |Only(rest, asked)| {
      k := OnlySplit(rest, asked, i);
      assert rest[..k] == plan[..k];
    } else {
      k := |plan| - 1;
    }
  }

  ghost predicate EndsAt(ends: seq<Event>, i: nat, n: Name) {
    i < |ends| && ends[i].call == End(n)
  }

  lemma EndsBeforeDeps(plan: seq<Segment>, segs: seq<Segment>, reg: Registry, lifecycle: set<Name>,
                       starts: seq<Event>, ends: seq<Event>, i: nat, d: Name)
    requires Serves(plan, segs, reg) && Phase(starts, StartCalls(Only(plan, lifecycle))) && Closed(ends, starts)
    requires i < |ends| && d in lifecycle && DependsOn(reg, ends[i].call.name, d)
    ensures exists j :: i < j && EndsAt(ends, j, d)
  {
    MirroredEnd(ends, starts, i);
    StartsFollowDeps(plan, segs, reg, lifecycle, starts, |ends| - 1 - i, d);
    EndsMirrorStarts(ends, starts, i, d);
  }

  lemma EndsMirrorStarts(ends: seq<Event>, starts: seq<Event>, i: nat, d: Name)
    requires Closed(ends, starts) && i < |ends| <= |starts| && StartedBefore(starts, |ends| - 1 - i, d)
    ensures exists j :: i < j && EndsAt(ends, j, d)
  {
    var n := |ends|;
    var l :| 0 <= l < n - 1 - i && starts[l].call.Start? && starts[l].call.name == d && starts[l].ok;
    MirroredEnd(ends, starts, n - 1 - l);
    assert EndsAt(ends, n - 1 - l, d);
  }

  lemma MirroredEnd(ends: seq<Event>, starts: seq<Event>, i: nat)
    requires Closed(ends, starts) && i < |ends|
    ensures |ends| <= |starts| && ends[i].call == End(starts[|ends| - 1 - i].call.name)
  {
  }

  /** When the session succeeds, the whole plan ran, so any two requested segments ran in the order of the request. */
  lemma SuccessRanAll(plan: seq<Segment>, segs: seq<Segment>, reg: Registry, lifecycle: set<Name>,
                      starts: seq<Event>, runs: seq<Event>, ends: seq<Event>, i: nat, j: nat)
    requires Serves(plan, segs, reg) && Proper(plan, lifecycle, starts, runs, ends, 0) && i <= j < |segs|
    ensures |runs| == |plan| && |starts| == |ends| == |Only(plan, lifecycle)|
    ensures exists k, l :: 0 <= k <= l < |runs| && (i < j ==> k < l) && RanAt(runs, k, segs[i]) && RanAt(runs, l, segs[j])
  {
    var asked := set n | n in Names(segs);
    if i == j {
      OnlyIn(plan, asked, i);
    } else {
      OnlyAt(plan, asked, i, j);
    }
    var k, l :| 0 <= k <= l < |plan| && (i < j ==> k < l) && plan[k] == segs[i] && plan[l] == segs[j];
    assert RanAt(runs, k, segs[i]) && RanAt(runs, l, segs[j]);
  }

  ghost predicate RanAt(runs: seq<Event>, k: nat, s: Segment) {
    k < |runs| && runs[k] == Event(Run(s.name, s.args), true)
  }

  /** In the whole log, a Run follows successful Runs of everything the plugin depends on. */
  ghost predicate RunsAfterDeps(log: seq<Event>, reg: Registry) {
    forall i, d :: 0 <= i < |log| && log[i].call.Run? && DependsOn(reg, log[i].call.name, d) ==> RanBefore(log, i, d)
  }

  lemma RunPosition(plan: seq<Segment>, lifecycle: set<Name>, starts: seq<Event>, runs: seq<Event>, ends: seq<Event>, code: int, i: nat)
    requires Proper(plan, lifecycle, starts, runs, ends, code)
    requires i < |starts + runs + ends| && (starts + runs + ends)[i].call.Run?
    ensures |starts| <= i < |starts| + |runs| && (starts + runs + ends)[i] == runs[i - |starts|]
    ensures Phase(runs, RunCalls(plan))
  {
  }

  lemma LogRunAfterDep(plan: seq<Segment>, segs: seq<Segment>, reg: Registry, starts: seq<Event>, runs: seq<Event>, ends: seq<Event>,
                       i: nat, d: Name)
    requires Serves(plan, segs, reg) && Phase(runs, RunCalls(plan))
    requires i < |runs| && DependsOn(reg, runs[i].call.name, d)
    ensures RanBefore(starts + runs + ends, |starts| + i, d)
  {
    RunsFollowDeps(plan, segs, reg, runs, i, d);
    var j :| 0 <= j < i && runs[j].call.Run? && runs[j].call.name == d && runs[j].ok;
    assert (starts + runs + ends)[|starts| + j] == runs[j];
  }

  lemma LogRunsAfterDeps(plan: seq<Segment>, segs: seq<Segment>, reg: Registry, lifecycle: set<Name>,
                         starts: seq<Event>, runs: seq<Event>, ends: seq<Event>, code: int)
    requires Serves(plan, segs, reg) && Proper(plan, lifecycle, starts, runs, ends, code)
    ensures RunsAfterDeps(starts + runs + ends, reg)
  {
    var log := starts + runs + ends;
    forall i, d | 0 <= i < |log| && log[i].call.Run? && DependsOn(reg, log[i].call.name, d)
      ensures RanBefore(log, i, d)
    {
      RunPosition(plan, lifecycle, starts, runs, ends, code, i);
      LogRunAfterDep(plan, segs, reg, starts, runs, ends, i - |starts|, d);
    }
  }

  /** The log is that of a session over a plan that serves the request. */
  ghost predicate SessionFor(log: seq<Event>, segs: seq<Segment>, reg: Registry, lifecycle: set<Name>, code: int) {
    exists plan, starts, runs, ends ::
      Serves(plan, segs, reg) && Proper(plan, lifecycle, starts, runs, ends, code) && log == starts + runs + ends
  }

  /** Planning comes first: a request without a plan reaches no plugin. */
  method RunRequest(segs: seq<Segment>, reg: Registry, lifecycle: set<Name>, plugins: Plugins) returns (code: int, log: seq<Event>)
    ensures Faithful(log, plugins)
    ensures code == 2 <==> !Plannable(segs, reg)
    ensures code == 2 ==> log == []
    ensures code != 2 ==> SessionFor(log, segs, reg, lifecycle, code) && RunsAfterDeps(log, reg)
  {
    var r := Plan(segs, reg);
    if r.Failed? {
      return 2, [];
    }
    var host := new Host(plugins);
    ghost var starts, runs, ends;
    code, starts, runs, ends := host.ExecSession(r.order, lifecycle);
    log := host.log;
    IsSessionFor(log, r.order, segs, reg, lifecycle, starts, runs, ends, code);
  }

  lemma IsSessionFor(log: seq<Event>, plan: seq<Segment>, segs: seq<Segment>, reg: Registry, lifecycle: set<Name>,
                     starts: seq<Event>, runs: seq<Event>, ends: seq<Event>, code: int)
    requires Serves(plan, segs, reg) && Proper(plan, lifecycle, starts, runs, ends, code)
    requires log == [] + starts + runs + ends
    ensures SessionFor(log, segs, reg, lifecycle, code) && RunsAfterDeps(log, reg) && code != 2
  {
    assert [] + starts == starts;
    LogRunsAfterDeps(plan, segs, reg, lifecycle, starts, runs, ends, code);
  }

  lemma {:induction false} OnlyPrefix(plan: seq<Segment>, asked: set<Name>, i: nat)
    requires i <= |plan|
    ensures |Only(plan[..i], asked)| <= |Only(plan, asked)| && Only(plan[..i], asked) == Only(plan, asked)[..|Only(plan[..i], asked)|]
  {
    if i < |plan| {
      OnlyPrefix(plan[..|plan| - 1], asked, i);
      assert plan[..|plan| - 1][..i] == plan[..i];
    } else {
      assert plan[..i] == plan;
    }
  }

  lemma StartPrefix(plan: seq<Segment>, asked: set<Name>, i: nat)
    requires i < |plan| && plan[i].name in asked
    ensures var n := |Only(plan[..i], asked)|; n < |Only(plan, asked)| && Only(plan, asked)[..n] == Only(plan[..i], asked) && Only(plan, asked)[n] == plan[i]
  {
    OnlyPrefix(plan, asked, i + 1);
    assert plan[..i + 1][..i] == plan[..i];
    OnlyPrefix(plan, asked, i);
  }
}
