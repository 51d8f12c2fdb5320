/** The dependency planner of the stress-test host. */
module Planner {
  import opened DepGraph

  datatype Segment = Segment(name: Name, args: seq<string>)

  datatype PlanError =
    | Duplicate(name: Name)
    | Cycle(name: Name)
    | Unregistered(name: Name)
    | Misordered(dep: Name, name: Name)

  datatype Planning = Planned(order: seq<Segment>) | Failed(error: PlanError)

  datatype Check = Fine | Bad(error: PlanError)

  function Names(segs: seq<Segment>): (r: seq<Name>)
    ensures |r| == |segs| && forall i :: 0 <= i < |r| ==> r[i] == segs[i].name
  {
    seq(|segs|, i requires 0 <= i < |segs| => segs[i].name)
  }

  /** The segments of order whose name is in asked, in order. */
  function Only(order: seq<Segment>, asked: set<Name>): seq<Segment> {
    if order == [] then []
    else
      var s := order[|order| - 1];
      Only(order[..|order| - 1], asked) + if s.name in asked then [s] else []
  }

  // ---- what the planner is for ----

  ghost predicate Wanted(segs: seq<Segment>, reg: Registry, n: Name) {
    exists i :: 0 <= i < |segs| && Reaches(reg, segs[i].name, n)
  }

  /** The requests that have a plan. */
  ghost predicate Plannable(segs: seq<Segment>, reg: Registry) {
    NoRepeats(Names(segs))
    && (forall n :: Wanted(segs, reg, n) ==> n in reg && !DependsOn(reg, n, n))
    && (forall i, j :: 0 <= i <= j < |segs| ==> !DependsOn(reg, segs[i].name, segs[j].name))
  }

  /** order serves the request: nothing twice, dependencies first, the request itself kept in its
      order with its arguments, and beyond it only needed plugins, with empty arguments. */
  ghost predicate Serves(order: seq<Segment>, segs: seq<Segment>, reg: Registry) {
    var asked := set n | n in Names(segs);
    NoRepeats(Names(order))
    && DepsFirst(reg, Names(order))
    && Only(order, asked) == segs
    && forall k :: 0 <= k < |order| ==>
      order[k].name in reg && Wanted(segs, reg, order[k].name)
      && (order[k].name !in asked ==> order[k].args == [])
  }

  /** What each error says about the request. */
  ghost predicate Explains(e: PlanError, segs: seq<Segment>, reg: Registry) {
    match e
    case Duplicate(n) => ComesTwice(segs, n)
    case Cycle(n) => Wanted(segs, reg, n) && DependsOn(reg, n, n)
    case Unregistered(n) => Wanted(segs, reg, n) && n !in reg
    case Misordered(d, n) => Edge(reg, n, d) && MisorderedIn(segs, reg, d, n)
  }

  ghost predicate ComesTwice(segs: seq<Segment>, n: Name) {
    exists i, j :: 0 <= i < j < |segs| && segs[i].name == n == segs[j].name
  }

  /** Some requested segment needs n, and through it d, which the request has no earlier. */
  ghost predicate MisorderedIn(segs: seq<Segment>, reg: Registry, d: Name, n: Name) {
    exists i, j :: 0 <= i <= j < |segs| && segs[j].name == d
      && Reaches(reg, segs[i].name, n) && DependsOn(reg, segs[i].name, segs[j].name)
  }

  lemma ExplainedIsUnplannable(e: PlanError, segs: seq<Segment>, reg: Registry)
    requires Explains(e, segs, reg)
    ensures !Plannable(segs, reg)
  {
    if e.Duplicate? {
      var i, j :| 0 <= i < j < |segs| && segs[i].name == e.name == segs[j].name;
      assert Names(segs)[i] == Names(segs)[j];
    }
  }

  lemma {:induction false} OnlyAt(order: seq<Segment>, asked: set<Name>, i: nat, j: nat)
    requires i < j < |Only(order, asked)|
    ensures exists k, l :: 0 <= k < l < |order| && order[k] == Only(order, asked)[i] && order[l] == Only(order, asked)[j]
  {
    var rest := order[..|order| - 1];
    if j < |Only(rest, asked)| {
      OnlyAt(rest, asked, i, j);
      var k, l :| 0 <= k < l < |rest| && rest[k] == Only(rest, asked)[i] && rest[l] == Only(rest, asked)[j];
      assert order[k] == rest[k] && order[l] == rest[l];
    } else {
      OnlyIn(rest, asked, i);
      var k :| 0 <= k < |rest| && rest[k] == Only(rest, asked)[i];
      assert order[k] == Only(order, asked)[i] && order[|order| - 1] == Only(order, asked)[j];
    }
  }

  lemma {:induction false} OnlyIn(order: seq<Segment>, asked: set<Name>, i: nat)
    requires i < |Only(order, asked)|
    ensures exists k :: 0 <= k < |order| && order[k] == Only(order, asked)[i]
  {
    var rest := order[..|order| - 1];
    if i < |Only(rest, asked)| {
      OnlyIn(rest, asked, i);
      var k :| 0 <= k < |rest| && rest[k] == Only(rest, asked)[i];
      assert order[k] == rest[k];
    } else {
      assert order[|order| - 1] == Only(order, asked)[i];
    }
  }

  /** Only the plannable requests can be served. */
  lemma ServedIsPlannable(order: seq<Segment>, segs: seq<Segment>, reg: Registry)
    requires Serves(order, segs, reg) && NoRepeats(Names(segs))
    ensures Plannable(segs, reg)
  {
    var asked := set n | n in Names(segs);
    var names := Names(order);
    forall n | Wanted(segs, reg, n)
      ensures n in reg && !DependsOn(reg, n, n)
    {
      var i :| 0 <= i < |segs| && Reaches(reg, segs[i].name, n);
      OnlyIn(order, asked, i);
      var k :| 0 <= k < |order| && order[k] == segs[i];
      assert names[k] == segs[i].name;
      var m := k;
      if names[k] != n {
        DependsBefore(reg, names, k, n);
        m :| 0 <= m < k && names[m] == n;
      }
      assert order[m].name == n;
      if DependsOn(reg, n, n) {
        DependsBefore(reg, names, m, n);
      }
    }
    forall i, j | 0 <= i <= j < |segs|
      ensures !DependsOn(reg, segs[i].name, segs[j].name)
    {
      if i == j {
        assert Reaches(reg, segs[i].name, segs[i].name) && Wanted(segs, reg, segs[i].name);
      } else {
        OnlyAt(order, asked, i, j);
        var k, l :| 0 <= k < l < |order| && order[k] == segs[i] && order[l] == segs[j];
        assert names[k] == segs[i].name && names[l] == segs[j].name;
        if DependsOn(reg, segs[i].name, segs[j].name) {
          DependsBefore(reg, names, k, segs[j].name);
        }
      }
    }
  }

  // ---- the planner ----

  /** The order has grown by plugins that root needs. */
  ghost predicate Grown(reg: Registry, before: seq<Segment>, after: seq<Segment>, root: Name) {
    |before| <= |after| && after[..|before|] == before
    && forall k :: |before| <= k < |after| ==> Reaches(reg, root, after[k].name)
  }

  lemma GrownFurther(reg: Registry, a: seq<Segment>, b: seq<Segment>, c: seq<Segment>, root: Name)
    requires Grown(reg, a, b, root) && Grown(reg, b, c, root)
    ensures Grown(reg, a, c, root)
  {
    assert c[..|a|] == c[..|b|][..|a|];
    forall k | |a| <= k < |c|
      ensures Reaches(reg, root, c[k].name)
    {
      if k < |b| {
        assert c[k] == c[..|b|][k] == b[k];
      }
    }
  }

  class Visitor {
    const reg: Registry
    const asked: set<Name>
    const argsOf: map<Name, seq<string>>
    var placed: set<Name>
    var visiting: set<Name>
    var order: seq<Segment>

    function ArgsOf(n: Name): seq<string> {
      if n in argsOf then argsOf[n] else []
    }

    ghost predicate Valid()
      reads this
    {
      placed == (set n | n in Names(order))
      && placed !! visiting
      && NoRepeats(Names(order)) && DepsFirst(reg, Names(order))
      && forall k :: 0 <= k < |order| ==> order[k].name in reg && order[k].args == ArgsOf(order[k].name)
    }

    constructor (reg: Registry, asked: set<Name>, argsOf: map<Name, seq<string>>)
      ensures this.reg == reg && this.asked == asked && this.argsOf == argsOf
      ensures Valid() && order == [] && visiting == {}
    {
      this.reg, this.asked, this.argsOf := reg, asked, argsOf;
      placed, visiting, order := {}, {}, [];
    }

    /** The segment of name when the request names it and it was not yet placed. */
    function OwnSegment(name: Name, placed: set<Name>): seq<Segment> {
      if name in asked && name !in placed then [Segment(name, ArgsOf(name))] else []
    }

    /** What an error found below root says. */
    ghost predicate FoundBelow(root: Name, e: PlanError)
      reads this
    {
      match e
      case Duplicate(n) => false
      case Cycle(n) => Reaches(reg, root, n) && DependsOn(reg, n, n)
      case Unregistered(n) => Reaches(reg, root, n) && n !in reg
      case Misordered(d, n) => Reaches(reg, root, n) && Edge(reg, n, d) && DependsOn(reg, root, d) && d in asked && d !in placed
    }

    /** Appends a plugin whose dependencies are all placed. */
    method Place(name: Name)
      requires Valid() && name !in placed && name !in visiting && name in reg
      requires forall d :: d in reg[name] ==> d in placed
      modifies this
      ensures Valid() && order == old(order) + [Segment(name, ArgsOf(name))]
      ensures visiting == old(visiting) && placed == old(placed) + {name}
    {
      order := order + [Segment(name, ArgsOf(name))];
      placed := placed + {name};
      assert Names(order) == old(Names(order)) + [name];
      assert Names(order)[..|Names(order)| - 1] == old(Names(order));
      forall i, d | 0 <= i < |Names(order)| && Edge(reg, Names(order)[i], d)
        ensures d in Names(order)[..i]
      {
        if i < |Names(order)| - 1 {
          assert Names(order)[..i] == old(Names(order))[..i];
        }
      }
    }

    /** Places name after everything it depends on. stack is the chain of visits under way, so the
        plugin asked for is its bottom and an error is about something that plugin needs. */
    method Visit(name: Name, ghost stack: seq<Name>) returns (c: Check)
      requires Valid() && IsPath(reg, stack + [name]) && visiting == (set n | n in stack)
      requires stack != [] ==> name !in asked
      modifies this
      ensures old(placed) <= placed
      ensures c.Fine? ==> Valid() && visiting == old(visiting) && name in placed && Grown(reg, old(order), order, (stack + [name])[0])
      ensures c.Fine? ==> Only(order, asked) == old(Only(order, asked)) + OwnSegment(name, old(placed))
      ensures c.Bad? ==> FoundBelow((stack + [name])[0], c.error)
      decreases reg.Keys - visiting, 0
    {
      ghost var path := stack + [name];
      PathReaches(reg, path);
      if name in placed {
        return Fine;
      }
      if name in visiting {
        ghost var k :| 0 <= k < |stack| && stack[k] == name;
        PathCycle(reg, path, k);
        return Bad(Cycle(name));
      }
      visiting := visiting + {name};
      if name !in reg {
        return Bad(Unregistered(name));
      }
      c := VisitDeps(name, path);
      if c.Bad? {
        return;
      }
      Settle(name, path[0], old(order));
      return Fine;
    }

    /** The visit of name is over: it leaves the stack and takes its place. */
    method Settle(name: Name, ghost root: Name, ghost before: seq<Segment>)
      requires Valid() && name !in placed && name in visiting && name in reg && Reaches(reg, root, name)
      requires (forall d :: d in reg[name] ==> d in placed) && Grown(reg, before, order, root)
      modifies this
      ensures Valid() && visiting == old(visiting) - {name} && placed == old(placed) + {name}
      ensures Grown(reg, before, order, root) && order == old(order) + [Segment(name, ArgsOf(name))]
    {
      visiting := visiting - {name};
      ghost var soFar := order;
      Place(name);
      GrownFurther(reg, before, soFar, order, root);
    }

    /** Places the dependencies of name, in their declared order. */
    method VisitDeps(name: Name, ghost path: seq<Name>) returns (c: Check)
      requires Valid() && IsPath(reg, path) && path[|path| - 1] == name && name in reg && visiting == (set n | n in path)
      modifies this
      ensures old(placed) <= placed
      ensures c.Fine? ==> Valid() && visiting == old(visiting) && Grown(reg, old(order), order, path[0])
      ensures c.Fine? ==> Only(order, asked) == old(Only(order, asked)) && forall d :: d in reg[name] ==> d in placed
      ensures c.Bad? ==> FoundBelow(path[0], c.error)
      decreases reg.Keys - visiting, 1
    {
      PathReaches(reg, path);
      var deps := reg[name];
      for i := 0 to |deps|
        invariant Valid() && visiting == old(visiting) && old(placed) <= placed
        invariant forall k :: 0 <= k < i ==> deps[k] in placed
        invariant Grown(reg, old(order), order, path[0]) && Only(order, asked) == old(Only(order, asked))
      {
        if deps[i] in placed {
          continue;
        }
        PathExtends(reg, path, deps[i]);
        if deps[i] in asked {
          return Bad(Misordered(deps[i], name));
        }
        ghost var soFar := order;
        c := Visit(deps[i], path);
        if c.Bad? {
          return;
        }
        GrownFurther(reg, old(order), soFar, order, path[0]);
      }
      return Fine;
    }
  }

  lemma {:induction false} OnlyHas(order: seq<Segment>, asked: set<Name>, k: nat)
    requires k < |order| && order[k].name in asked
    ensures order[k] in Only(order, asked)
  {
    if k < |order| - 1 {
      OnlyHas(order[..|order| - 1], asked, k);
    }
  }

  /** After i of the segments have been visited: the order so far serves the first i. */
  ghost predicate Progress(v: Visitor, segs: seq<Segment>, i: nat)
    reads v
    requires i <= |segs|
  {
    v.Valid() && v.visiting == {}
    && Only(v.order, v.asked) == segs[..i]
    && (forall k :: 0 <= k < i ==> segs[k].name in v.placed)
    && forall k :: 0 <= k < |v.order| ==> Wanted(segs, v.reg, v.order[k].name)
  }

  /** The visitor was built from the request. */
  ghost predicate Requested(v: Visitor, segs: seq<Segment>) {
    NoRepeats(Names(segs)) && v.asked == (set n | n in Names(segs)) && v.argsOf.Keys == v.asked
    && forall k :: 0 <= k < |segs| ==> v.ArgsOf(segs[k].name) == segs[k].args
  }

  lemma NotYetPlaced(v: Visitor, segs: seq<Segment>, i: nat)
    requires i < |segs| && Requested(v, segs) && Progress(v, segs, i)
    ensures segs[i].name !in v.placed && segs[i].name in v.asked
    ensures v.OwnSegment(segs[i].name, v.placed) == [segs[i]]
  {
    assert Names(segs)[i] == segs[i].name;
    if segs[i].name in v.placed {
      var k :| 0 <= k < |v.order| && Names(v.order)[k] == segs[i].name;
      OnlyHas(v.order, v.asked, k);
    }
  }

  lemma BelowExplains(v: Visitor, segs: seq<Segment>, i: nat, e: PlanError)
    requires i < |segs| && Requested(v, segs) && v.FoundBelow(segs[i].name, e)
    requires forall k :: 0 <= k < i ==> segs[k].name in v.placed
    ensures Explains(e, segs, v.reg)
  {
    if e.Misordered? {
      var j :| 0 <= j < |segs| && Names(segs)[j] == e.dep;
      assert i <= j && segs[j].name == e.dep;
    }
  }

  lemma PrefixStep(segs: seq<Segment>, i: nat)
    requires i < |segs|
    ensures segs[..i + 1] == segs[..i] + [segs[i]]
  {
  }

  /** Visits the next requested segment. */
  method VisitNext(v: Visitor, segs: seq<Segment>, i: nat) returns (c: Check)
    requires i < |segs| && Requested(v, segs) && Progress(v, segs, i)
    modifies v
    ensures c.Fine? ==> Progress(v, segs, i + 1)
    ensures c.Bad? ==> Explains(c.error, segs, v.reg)
  {
    NotYetPlaced(v, segs, i);
    ghost var before := v.order;
    c := v.Visit(segs[i].name, []);
    if c.Bad? {
      BelowExplains(v, segs, i, c.error);
    } else {
      PrefixStep(segs, i);
      forall k | 0 <= k < |v.order|
        ensures Wanted(segs, v.reg, v.order[k].name)
      {
        assert k < |before| ==> v.order[..|before|][k] == before[k];
      }
    }
  }

  lemma CompleteServes(v: Visitor, segs: seq<Segment>)
    requires Requested(v, segs) && Progress(v, segs, |segs|)
    ensures Serves(v.order, segs, v.reg)
  {
    assert segs[..|segs|] == segs;
  }

  /** The segments indexed by name, or the first name that comes twice. */
  method Index(segs: seq<Segment>) returns (c: Check, asked: set<Name>, argsOf: map<Name, seq<string>>)
    ensures c.Fine? ==> NoRepeats(Names(segs)) && asked == (set n | n in Names(segs)) && argsOf.Keys == asked
    ensures c.Fine? ==> forall k :: 0 <= k < |segs| ==> segs[k].name in argsOf && argsOf[segs[k].name] == segs[k].args
    ensures c.Bad? ==> c.error.Duplicate? && ComesTwice(segs, c.error.name)
  {
    var names := Names(segs);
    asked, argsOf := {}, map[];
    for i := 0 to |segs|
      invariant forall k, l :: 0 <= k < l < i ==> names[k] != names[l]
      invariant asked == (set k | 0 <= k < i :: names[k]) && argsOf.Keys == asked
      invariant forall k :: 0 <= k < i ==> names[k] in argsOf && argsOf[names[k]] == segs[k].args
    {
      if names[i] in asked {
        return Bad(Duplicate(names[i])), asked, argsOf;
      }
      asked := asked + {names[i]};
      argsOf := argsOf[names[i] := segs[i].args];
    }
    c := Fine;
  }

  /** Planning succeeds exactly for the plannable requests, its order serves the request, and an error names a real obstacle. */
  method Plan(segs: seq<Segment>, reg: Registry) returns (r: Planning)
    ensures r.Planned? <==> Plannable(segs, reg)
    ensures r.Planned? ==> Serves(r.order, segs, reg)
    ensures r.Failed? ==> Explains(r.error, segs, reg)
  {
    var c, asked, argsOf := Index(segs);
    if c.Bad? {
      ExplainedIsUnplannable(c.error, segs, reg);
      return Failed(c.error);
    }
    var v := new Visitor(reg, asked, argsOf);
    for i := 0 to |segs|
      invariant v.reg == reg && Requested(v, segs) && Progress(v, segs, i)
    {
      c := VisitNext(v, segs, i);
      if c.Bad? {
        ExplainedIsUnplannable(c.error, segs, reg);
        return Failed(c.error);
      }
    }
    CompleteServes(v, segs);
    ServedIsPlannable(v.order, segs, reg);
    return Planned(v.order);
  }
}
