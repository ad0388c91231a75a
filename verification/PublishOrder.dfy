/**
 `publishOrder` of scripts/publish-packages.ts: a depth-first dependency order of the workspace, or failure.
 It fails exactly when the dependency graph inside the workspace has a cycle.
 */
module PublishOrder {
  import opened Wrappers

  /** The names a manifest lists, in order. */
  datatype Manifest = Manifest(dependencies: seq<string>, peerDependencies: seq<string>)

  type Packages = map<string, Manifest>

  /** `Object.keys({ ...dependencies, ...peerDependencies })`. */
  function DependencyNames(m: Manifest): (names: seq<string>)
    ensures forall d :: d in names <==> d in m.dependencies || d in m.peerDependencies
  {
    m.dependencies + Others(m.peerDependencies, m.dependencies)
  }

  function Others(names: seq<string>, known: seq<string>): (r: seq<string>)
    ensures forall d :: d in r <==> d in names && d !in known
  {
    if names == [] then []
    else (if names[0] in known then [] else [names[0]]) + Others(names[1..], known)
  }

  /** `a` depends on `b`, both being in the workspace. */
  predicate Edge(packages: Packages, a: string, b: string) {
    a in packages && b in packages && (b in packages[a].dependencies || b in packages[a].peerDependencies)
  }

  ghost predicate Path(packages: Packages, p: seq<string>) {
    forall i :: 0 < i < |p| ==> Edge(packages, p[i - 1], p[i])
  }

  ghost predicate Cycle(packages: Packages, p: seq<string>) {
    |p| > 1 && Path(packages, p) && p[0] == p[|p| - 1]
  }

  ghost predicate HasCycle(packages: Packages) {
    exists p :: Cycle(packages, p)
  }

  ghost predicate NoDuplicates(s: seq<string>) {
    forall i, j :: 0 <= i < j < |s| ==> s[i] != s[j]
  }

  /** Everything a listed package depends on is listed before it. */
  ghost predicate DependenciesFirst(packages: Packages, order: seq<string>) {
    forall i, d :: 0 <= i < |order| && Edge(packages, order[i], d) ==> d in order[..i]
  }

  /** Every package once, after its dependencies. */
  ghost predicate Topological(packages: Packages, order: seq<string>) {
    && NoDuplicates(order)
    && (forall n :: n in order <==> n in packages)
    && DependenciesFirst(packages, order)
  }

  datatype Mark = Visiting | Done

  ghost predicate Consistent(packages: Packages, order: seq<string>, state: map<string, Mark>, stack: seq<string>) {
    && NoDuplicates(order) && DependenciesFirst(packages, order)
    && (forall n :: n in order ==> n in packages)
    && (forall n :: n in state ==> n in packages)
    && (forall n :: n in order <==> n in state && state[n] == Done)
    && (forall n :: n in stack <==> n in state && state[n] == Visiting)
    && Path(packages, stack)
  }

  class Planner {
    const packages: Packages
    var order: seq<string>
    var state: map<string, Mark>

    constructor (packages: Packages)
      ensures this.packages == packages && order == [] && state == map[]
    {
      this.packages, order, state := packages, [], map[];
    }

    /** `visit`; `stack` is the chain of packages being visited, and `false` is the script's exit. */
    method Visit(name: string, ghost stack: seq<string>) returns (ok: bool)
      requires name in packages && Consistent(packages, order, state, stack)
      requires stack != [] ==> Edge(packages, stack[|stack| - 1], name)
      modifies this
      ensures !ok ==> HasCycle(packages)
      ensures ok ==> Consistent(packages, order, state, stack) && name in order && old(order) <= order
      ensures ok ==> forall n :: n in old(state) ==> n in state
      decreases packages.Keys - state.Keys
    {
      if name in state && state[name] == Done {
        return true;
      }
      if name in state && state[name] == Visiting {
        CycleOnStack(packages, stack, name);
        return false;
      }
      state := state[name := Visiting];
      Deeper(packages, order, old(state), stack, name);
      var deps := DependencyNames(packages[name]);
      for i := 0 to |deps|
        invariant Consistent(packages, order, state, stack + [name])
        invariant old(order) <= order && name in state
        invariant forall n :: n in old(state) ==> n in state
        invariant forall k :: 0 <= k < i && deps[k] in packages ==> deps[k] in order
      {
        if deps[i] in packages {
          ghost var before := order;
          var visited := Visit(deps[i], stack + [name]);
          if !visited {
            return false;
          }
          assert forall n :: n in before ==> n in order;
        }
      }
      Finish(packages, order, state, stack, name);
      order := order + [name];
      state := state[name := Done];
      return true;
    }
  }

  lemma CycleOnStack(packages: Packages, stack: seq<string>, name: string)
    requires Path(packages, stack) && name in stack && Edge(packages, stack[|stack| - 1], name)
    ensures HasCycle(packages)
  {
    var k :| 0 <= k < |stack| && stack[k] == name;
    var p := stack[k..] + [name];
    forall i | 0 < i < |p| ensures Edge(packages, p[i - 1], p[i]) {
      if i < |p| - 1 {
        assert p[i - 1] == stack[k + i - 1] && p[i] == stack[k + i];
      }
    }
    assert Cycle(packages, p);
  }

  lemma Deeper(packages: Packages, order: seq<string>, state: map<string, Mark>, stack: seq<string>, name: string)
    requires Consistent(packages, order, state, stack) && name in packages && name !in state
    requires stack != [] ==> Edge(packages, stack[|stack| - 1], name)
    ensures Consistent(packages, order, state[name := Visiting], stack + [name])
  {
    var deeper := stack + [name];
    forall i | 0 < i < |deeper| ensures Edge(packages, deeper[i - 1], deeper[i]) {
      if i < |stack| {
        assert Edge(packages, stack[i - 1], stack[i]);
      }
    }
    assert forall n :: n in deeper <==> n in stack || n == name;
  }

  lemma Finish(packages: Packages, order: seq<string>, state: map<string, Mark>, stack: seq<string>, name: string)
    requires Consistent(packages, order, state, stack + [name]) && name in packages && name !in stack
    requires forall d :: Edge(packages, name, d) ==> d in order
    ensures Consistent(packages, order + [name], state[name := Done], stack)
  {
    var deeper, longer := stack + [name], order + [name];
    assert name in deeper && name !in order;
    assert forall n :: n in deeper <==> n in stack || n == name;
    assert forall n :: n in longer <==> n in order || n == name;
    forall i | 0 < i < |stack| ensures Edge(packages, stack[i - 1], stack[i]) {
      assert deeper[i - 1] == stack[i - 1] && deeper[i] == stack[i];
    }
    forall i, d | 0 <= i < |longer| && Edge(packages, longer[i], d) ensures d in longer[..i] {
      if i < |order| {
        assert longer[..i] == order[..i];
      } else {
        assert longer[..i] == order;
      }
    }
  }

  /** `publishOrder(packages)`, with `None` for the script's exit; `names` is the map's key order. */
  method Plan(packages: Packages, names: seq<string>) returns (r: Option<seq<string>>)
    requires forall n :: n in names <==> n in packages
    ensures r.None? <==> HasCycle(packages)
    ensures r.Some? ==> Topological(packages, r.value)
  {
    var planner := new Planner(packages);
    for i := 0 to |names|
      invariant planner.packages == packages && fresh(planner)
      invariant Consistent(packages, planner.order, planner.state, [])
      invariant forall k :: 0 <= k < i ==> names[k] in planner.order
    {
      ghost var before := planner.order;
      var ok := planner.Visit(names[i], []);
      if !ok {
        return None;
      }
      assert forall n :: n in before ==> n in planner.order;
    }
    r := Some(planner.order);
    if HasCycle(packages) {
      TopologicalHasNoCycle(packages, planner.order);
    }
  }

  // ---------------------------------------------------------------- an order rules cycles out

  lemma {:induction false} EarlierAlongPath(packages: Packages, order: seq<string>, p: seq<string>, i: nat) returns (j: nat)
    requires Topological(packages, order) && |p| > 0 && Path(packages, p) && i < |order| && order[i] == p[0]
    ensures j <= i && order[j] == p[|p| - 1] && (|p| > 1 ==> j < i)
    decreases |p|
  {
    if |p| == 1 {
      j := i;
    } else {
      assert Edge(packages, p[0], p[1]);
      var k :| 0 <= k < i && order[..i][k] == p[1];
      assert forall n :: 0 < n < |p[1..]| ==> p[1..][n - 1] == p[n] && p[1..][n] == p[n + 1];
      j := EarlierAlongPath(packages, order, p[1..], k);
    }
  }

  lemma TopologicalHasNoCycle(packages: Packages, order: seq<string>)
    requires Topological(packages, order)
    ensures !HasCycle(packages)
  {
    if HasCycle(packages) {
      var p :| Cycle(packages, p);
      assert Edge(packages, p[0], p[1]);
      var i :| 0 <= i < |order| && order[i] == p[0];
      var j := EarlierAlongPath(packages, order, p, i);
    }
  }
}
