/** The depth-first cycle check on the children's dependencies. */
module FanoutGraph {
  import opened JsStrings

  type Graph = map<JsString, seq<JsString>>

  /** `b` is a dependency of `a`. */
  predicate Edge(g: Graph, a: JsString, b: JsString) { a in g && b in g[a] }

  predicate Walk(g: Graph, p: seq<JsString>) {
    forall k :: 0 <= k < |p| - 1 ==> Edge(g, p[k], p[k + 1])
  }

  /** A walk of at least one step that ends where it starts. */
  predicate CycleIn(g: Graph, p: seq<JsString>) {
    |p| >= 2 && p[0] == p[|p| - 1] && Walk(g, p)
  }

  ghost predicate HasCycle(g: Graph) { exists p :: CycleIn(g, p) }

  /** Every dependency is a node: what the key check before the cycle check establishes. */
  predicate Closed(g: Graph) {
    forall a, b :: a in g && b in g[a] ==> b in g
  }

  /** Each element's dependencies come before it. */
  ghost predicate Topological(g: Graph, order: seq<JsString>) {
    forall i :: 0 <= i < |order| ==> order[i] in g && forall d :: d in g[order[i]] ==> d in order[..i]
  }

  /** The position of the first occurrence. */
  function Rank(order: seq<JsString>, x: JsString): (r: nat)
    requires x in order
    ensures r < |order| && order[r] == x && forall k :: 0 <= k < r ==> order[k] != x
  {
    if order[0] == x then 0
    else 1 + Rank(order[1..], x)
  }

  lemma WalkSuffix(g: Graph, p: seq<JsString>, m: nat)
    requires Walk(g, p) && m <= |p|
    ensures Walk(g, p[m..])
  {
    var q := p[m..];
    forall k | 0 <= k < |q| - 1 ensures Edge(g, q[k], q[k + 1]) {
      assert Edge(g, p[m + k], p[m + k + 1]);
    }
  }

  lemma WalkExtends(g: Graph, p: seq<JsString>, x: JsString)
    requires Walk(g, p) && (p == [] || Edge(g, p[|p| - 1], x))
    ensures Walk(g, p + [x])
  {
    var q := p + [x];
    forall k | 0 <= k < |q| - 1 ensures Edge(g, q[k], q[k + 1]) {
      if k < |p| - 1 { assert Edge(g, p[k], p[k + 1]); }
    }
  }

  /** Reaching a node of the walk again closes a cycle. */
  lemma CycleCloses(g: Graph, stack: seq<JsString>, key: JsString)
    requires Walk(g, stack + [key]) && key in stack
    ensures HasCycle(g)
  {
    var m :| 0 <= m < |stack| && stack[m] == key;
    var p := stack + [key];
    WalkSuffix(g, p, m);
    assert CycleIn(g, p[m..]);
  }

  lemma TopologicalExtends(g: Graph, order: seq<JsString>, key: JsString)
    requires Topological(g, order) && key in g && forall d :: d in g[key] ==> d in order
    ensures Topological(g, order + [key])
  {
    var next := order + [key];
    forall i | 0 <= i < |next| ensures next[i] in g && forall d :: d in g[next[i]] ==> d in next[..i] {
      assert next[..i] == order[..i];
      if i == |order| { assert order[..i] == order; }
    }
  }

  lemma EdgeLowersRank(g: Graph, order: seq<JsString>, a: JsString, b: JsString)
    requires Topological(g, order) && a in order && Edge(g, a, b)
    ensures b in order && Rank(order, b) < Rank(order, a)
  {
    var i := Rank(order, a);
    assert b in order[..i];
    var j :| 0 <= j < i && order[j] == b;
  }

  lemma {:induction false} WalkLowersRank(g: Graph, order: seq<JsString>, p: seq<JsString>)
    requires Topological(g, order) && p != [] && p[0] in order && Walk(g, p)
    ensures p[|p| - 1] in order && Rank(order, p[|p| - 1]) <= Rank(order, p[0]) - (|p| - 1)
    decreases |p|
  {
    if |p| > 1 {
      assert Edge(g, p[0], p[1]);
      EdgeLowersRank(g, order, p[0], p[1]);
      WalkSuffix(g, p, 1);
      WalkLowersRank(g, order, p[1..]);
    }
  }

  /** A topological order of all nodes excludes cycles. */
  lemma OrderedMeansAcyclic(g: Graph, order: seq<JsString>)
    requires Topological(g, order) && forall x :: x in g ==> x in order
    ensures !HasCycle(g)
  {
    forall p | CycleIn(g, p) ensures false {
      assert Edge(g, p[0], p[1]);
      WalkLowersRank(g, order, p);
    }
  }

  class DependencyWalk {
    const byKey: Graph
    var visiting: set<JsString>
    var visited: set<JsString>
    ghost var order: seq<JsString>

    constructor (byKey: Graph)
      ensures this.byKey == byKey && visiting == {} && visited == {} && order == []
    {
      this.byKey := byKey;
      visiting, visited, order := {}, {}, [];
    }

    /** The visited nodes are topologically ordered; the visiting ones form the walk `stack`. */
    ghost predicate Valid(stack: seq<JsString>)
      reads this
    {
      && Closed(byKey) && Topological(byKey, order) && (forall x :: x in visited <==> x in order)
      && (forall x :: x in visiting <==> x in stack) && Walk(byKey, stack)
    }

    method Visit(key: JsString, ghost stack: seq<JsString>) returns (accepted: bool)
      requires Valid(stack) && key in byKey && Walk(byKey, stack + [key])
      modifies this
      ensures accepted ==> Valid(stack) && visiting == old(visiting) && old(visited) <= visited && key in visited
      ensures !accepted ==> HasCycle(byKey)
      decreases byKey.Keys - visiting
    {
      hide Walk, Topological, HasCycle, Closed;
      if key in visiting {
        CycleCloses(byKey, stack, key);
        return false;
      }
      if key in visited {
        return true;
      }
      visiting := visiting + {key};
      ghost var deeper := stack + [key];
      var dependencies := byKey[key];
      for i := 0 to |dependencies|
        invariant Valid(deeper) && visiting == old(visiting) + {key} && old(visited) <= visited
        invariant forall d :: d in dependencies[..i] ==> d in visited
      {
        EdgeStays(byKey, key, dependencies[i]);
        WalkExtends(byKey, deeper, dependencies[i]);
        var reached := Visit(dependencies[i], deeper);
        if !reached { return false; }
        assert dependencies[..i + 1] == dependencies[..i] + [dependencies[i]];
      }
      assert dependencies[..|dependencies|] == dependencies;
      TopologicalExtends(byKey, order, key);
      visiting := visiting - {key};
      visited := visited + {key};
      order := order + [key];
      return true;
    }
  }

  lemma EdgeStays(g: Graph, a: JsString, b: JsString)
    requires Closed(g) && a in g && b in g[a]
    ensures b in g && Edge(g, a, b)
  {
  }

  /** assertAcyclic: visiting from every key accepts exactly the graphs without a cycle. */
  method AssertAcyclic(keys: seq<JsString>, byKey: Graph) returns (accepted: bool)
    requires Closed(byKey) && forall x :: x in keys <==> x in byKey
    ensures accepted <==> !HasCycle(byKey)
  {
    var walk := new DependencyWalk(byKey);
    for i := 0 to |keys|
      invariant walk.Valid([]) && walk.byKey == byKey && walk.visiting == {}
      invariant forall x :: x in keys[..i] ==> x in walk.visited
    {
      var reached := walk.Visit(keys[i], []);
      if !reached { return false; }
      assert keys[..i + 1] == keys[..i] + [keys[i]];
    }
    assert keys[..|keys|] == keys;
    OrderedMeansAcyclic(byKey, walk.order);
    return true;
  }
}
