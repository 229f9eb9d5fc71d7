/**
 The dependency graph of client/src/module_graph.cpp: modules that depend on each other by name, the
 groups they fall into, and what a plan for linking them promises.
 */
module ModuleGraph {

  datatype Module = Module(name: string, folder: string, source: string, dependencies: seq<string>, runtime: nat,
                           fingerprint: string, package: string)

  type Edges = set<(nat, nat)>

  /** A module and one it names as a dependency. */
  ghost predicate DependsOn(modules: seq<Module>, i: nat, j: nat)
  {
    i < |modules| && j < |modules| && modules[j].name in modules[i].dependencies
  }

  // ---------------------------------------------------------------- what a module needs

  ghost predicate Chain(modules: seq<Module>, path: seq<nat>, i: nat, j: nat)
  {
    && path != [] && path[0] == i && path[|path| - 1] == j
    && forall k :: 0 <= k < |path| - 1 ==> DependsOn(modules, path[k], path[k + 1])
  }

  /** A module needs itself and what its dependencies need. */
  ghost predicate Needs(modules: seq<Module>, i: nat, j: nat)
  {
    exists path: seq<nat> :: Chain(modules, path, i, j)
  }

  lemma {:induction false} NeedsSelf(modules: seq<Module>, i: nat)
    ensures Needs(modules, i, i)
  {
    assert Chain(modules, [i], i, i);
  }

  lemma {:induction false} NeedsOn(modules: seq<Module>, i: nat, j: nat, k: nat)
    requires DependsOn(modules, i, j) && Needs(modules, j, k)
    ensures Needs(modules, i, k)
  {
    var path: seq<nat> :| Chain(modules, path, j, k);
    var longer := [i] + path;
    forall n | 0 <= n < |longer| - 1 ensures DependsOn(modules, longer[n], longer[n + 1]) {
      if n > 0 { assert DependsOn(modules, path[n - 1], path[n]); }
    }
    assert Chain(modules, longer, i, k);
  }

  lemma {:induction false} NeedsMore(modules: seq<Module>, more: seq<Module>, i: nat, j: nat)
    requires modules <= more && Needs(modules, i, j)
    ensures Needs(more, i, j)
  {
    var path: seq<nat> :| Chain(modules, path, i, j);
    forall n | 0 <= n < |path| - 1 ensures DependsOn(more, path[n], path[n + 1]) {
      assert DependsOn(modules, path[n], path[n + 1]);
    }
    assert Chain(more, path, i, j);
  }

  // ---------------------------------------------------------------- connection

  /** Neighbours in either direction. */
  ghost predicate Adjacent(edges: Edges, i: nat, j: nat)
  {
    (i, j) in edges || (j, i) in edges
  }

  ghost predicate Path(edges: Edges, path: seq<nat>, i: nat, j: nat)
  {
    && path != [] && path[0] == i && path[|path| - 1] == j
    && forall k :: 0 <= k < |path| - 1 ==> Adjacent(edges, path[k], path[k + 1])
  }

  ghost predicate Connected(edges: Edges, i: nat, j: nat)
  {
    exists path: seq<nat> :: Path(edges, path, i, j)
  }

  lemma {:induction false} ConnectedSelf(edges: Edges, i: nat)
    ensures Connected(edges, i, i)
  {
    assert Path(edges, [i], i, i);
  }

  lemma {:induction false} ConnectedOn(edges: Edges, i: nat, j: nat, k: nat)
    requires Connected(edges, i, j) && Connected(edges, j, k)
    ensures Connected(edges, i, k)
  {
    var p: seq<nat> :| Path(edges, p, i, j);
    var q: seq<nat> :| Path(edges, q, j, k);
    var path := p + q[1..];
    forall n | 0 <= n < |path| - 1 ensures Adjacent(edges, path[n], path[n + 1]) {
      if n < |p| - 1 {
        assert Adjacent(edges, p[n], p[n + 1]);
      } else {
        assert path[n] == q[n - (|p| - 1)] && path[n + 1] == q[n - (|p| - 1) + 1];
        assert Adjacent(edges, q[n - (|p| - 1)], q[n - (|p| - 1) + 1]);
      }
    }
    assert Path(edges, path, i, k);
  }

  lemma {:induction false} ConnectedEdge(edges: Edges, i: nat, j: nat)
    requires Adjacent(edges, i, j)
    ensures Connected(edges, i, j)
  {
    assert Path(edges, [i, j], i, j);
  }

  lemma {:induction false} MoreEdges(edges: Edges, more: Edges, i: nat, j: nat)
    requires edges <= more && Connected(edges, i, j)
    ensures Connected(more, i, j)
  {
    var path: seq<nat> :| Path(edges, path, i, j);
    forall k | 0 <= k < |path| - 1 ensures Adjacent(more, path[k], path[k + 1]) {
      assert Adjacent(edges, path[k], path[k + 1]);
    }
    assert Path(more, path, i, j);
  }

  /** Whatever agrees along every edge agrees along every path. */
  lemma {:induction false} SameAlongPath(edges: Edges, mark: nat -> nat, i: nat, j: nat)
    requires Connected(edges, i, j)
    requires forall a, b :: (a, b) in edges ==> mark(a) == mark(b)
    ensures mark(i) == mark(j)
  {
    var path: seq<nat> :| Path(edges, path, i, j);
    SameAlong(edges, mark, path, |path| - 1);
  }

  lemma {:induction false} SameAlong(edges: Edges, mark: nat -> nat, path: seq<nat>, n: nat)
    requires n < |path| && forall k :: 0 <= k < |path| - 1 ==> Adjacent(edges, path[k], path[k + 1])
    requires forall a, b :: (a, b) in edges ==> mark(a) == mark(b)
    ensures mark(path[n]) == mark(path[0])
  {
    if n > 0 {
      SameAlong(edges, mark, path, n - 1);
      assert Adjacent(edges, path[n - 1], path[n]);
    }
  }

  // ---------------------------------------------------------------- the groups

  /** The part of `order` whose root is `r`. */
  ghost function Class(order: seq<nat>, roots: seq<nat>, r: nat): (c: seq<nat>)
    requires forall k :: 0 <= k < |order| ==> order[k] < |roots|
    ensures forall i <- c :: i in order && roots[i] == r
    ensures forall i <- order :: roots[i] == r ==> i in c
  {
    if order == [] then []
    else
      var front := Class(order[..|order| - 1], roots, r);
      if roots[order[|order| - 1]] == r then front + [order[|order| - 1]] else front
  }

  /** The classes of the first `n` roots that are not empty. */
  ghost function Classes(order: seq<nat>, roots: seq<nat>, n: nat): seq<seq<nat>>
    requires forall k :: 0 <= k < |order| ==> order[k] < |roots|
  {
    if n == 0 then []
    else
      var front := Classes(order, roots, n - 1);
      var group := Class(order, roots, n - 1);
      if group == [] then front else front + [group]
  }

  /** `order` lists dependencies before dependents. */
  ghost predicate Ordered(modules: seq<Module>, order: seq<nat>)
  {
    forall p :: 0 <= p < |order| ==> forall j :: DependsOn(modules, order[p], j) ==> j in order[..p]
  }
}
