/** Plugin dependencies as a graph: what a plugin needs, directly or through others. */
module DepGraph {

  type Name = string

  /** The registered plugins with their declared dependencies. */
  type Registry = map<Name, seq<Name>>

  predicate Edge(reg: Registry, a: Name, b: Name) {
    a in reg && b in reg[a]
  }

  /** Every plugin on p declares the next one as a dependency. */
  ghost predicate IsPath(reg: Registry, p: seq<Name>) {
    p != [] && (|p| > 1 ==> IsPath(reg, p[..|p| - 1]) && Edge(reg, p[|p| - 2], p[|p| - 1]))
  }

  ghost predicate Joins(reg: Registry, p: seq<Name>, a: Name, b: Name) {
    IsPath(reg, p) && p[0] == a && p[|p| - 1] == b
  }

  /** a needs b, directly or transitively. */
  ghost predicate DependsOn(reg: Registry, a: Name, b: Name) {
    exists p :: Joins(reg, p, a, b) && |p| > 1
  }

  ghost predicate Reaches(reg: Registry, a: Name, b: Name) {
    a == b || DependsOn(reg, a, b)
  }

  lemma PathReaches(reg: Registry, p: seq<Name>)
    requires IsPath(reg, p)
    ensures Reaches(reg, p[0], p[|p| - 1]) && (|p| > 1 ==> DependsOn(reg, p[0], p[|p| - 1]))
  {
    assert Joins(reg, p, p[0], p[|p| - 1]);
  }

  lemma PathExtends(reg: Registry, p: seq<Name>, b: Name)
    requires IsPath(reg, p) && Edge(reg, p[|p| - 1], b)
    ensures IsPath(reg, p + [b]) && DependsOn(reg, p[0], b)
  {
    assert (p + [b])[..|p|] == p;
    PathReaches(reg, p + [b]);
  }

  lemma {:induction false} PathSuffix(reg: Registry, p: seq<Name>, k: nat)
    requires IsPath(reg, p) && k < |p|
    ensures IsPath(reg, p[k..])
  {
    if k < |p| - 1 {
      PathSuffix(reg, p[..|p| - 1], k);
      assert p[..|p| - 1][k..] == p[k..][..|p| - 1 - k];
    }
  }

  /** Coming back to a plugin on the path is a cycle. */
  lemma PathCycle(reg: Registry, p: seq<Name>, k: nat)
    requires IsPath(reg, p) && k < |p| - 1 && p[k] == p[|p| - 1]
    ensures DependsOn(reg, p[k], p[k])
  {
    PathSuffix(reg, p, k);
    PathReaches(reg, p[k..]);
  }

  // ---- orders in which dependencies come first ----

  ghost predicate NoRepeats(names: seq<Name>) {
    forall i, j :: 0 <= i < j < |names| ==> names[i] != names[j]
  }

  ghost predicate DepsFirst(reg: Registry, names: seq<Name>) {
    forall i, d :: 0 <= i < |names| && Edge(reg, names[i], d) ==> d in names[..i]
  }

  lemma {:induction false} PathGoesBack(reg: Registry, names: seq<Name>, p: seq<Name>, i: nat)
    requires DepsFirst(reg, names) && IsPath(reg, p) && i < |names| && p[0] == names[i]
    ensures exists j :: 0 <= j <= i && names[j] == p[|p| - 1] && (|p| > 1 ==> j < i)
  {
    if |p| > 1 {
      PathGoesBack(reg, names, p[..|p| - 1], i);
      var j :| 0 <= j <= i && names[j] == p[|p| - 2];
      assert p[|p| - 1] in names[..j];
    }
  }

  /** In such an order everything a plugin depends on comes before it, so nothing depends on itself. */
  lemma DependsBefore(reg: Registry, names: seq<Name>, i: nat, b: Name)
    requires DepsFirst(reg, names) && i < |names| && DependsOn(reg, names[i], b)
    ensures exists j :: 0 <= j < i && names[j] == b
  {
    var p :| Joins(reg, p, names[i], b) && |p| > 1;
    PathGoesBack(reg, names, p, i);
  }
}
