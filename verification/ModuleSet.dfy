/**
 `Module_Set` and `Prepare_Link` of client/src/module_graph.cpp: modules are read as they are needed,
 visited depth first, and joined into groups by union-find with path halving.

 The file system is a value: a canonical path for every path, which paths exist, and what a canonical path
 reads as when it is a linkable module with a matching runtime.
 */
module ModuleSet {
  import opened Options
  import opened ModuleGraph

  /** What a module file says; `runtime` is the fingerprint of the runtime it was built against. */
  datatype File = File(name: string, folder: string, dependencies: seq<string>, runtime: string, fingerprint: string, package: string)

  datatype World = World(canonical: string -> Option<string>, present: string -> bool, directory: string -> string,
                         files: map<string, File>, loaded: bool)

  datatype Visit = Unseen | Visiting | Complete

  // ---------------------------------------------------------------- the forest of groups

  /** An element's parent has its root, and is nearer to it unless the element is the root. */
  ghost predicate Rooted(parents: seq<nat>, roots: seq<nat>, heights: seq<nat>, i: nat)
    requires |roots| == |heights| == |parents| && i < |parents|
  {
    && parents[i] < |parents| && roots[i] < |parents|
    && roots[parents[i]] == roots[i] && parents[roots[i]] == roots[i]
    && (if parents[i] == i then roots[i] == i else heights[parents[i]] < heights[i])
  }

  /** Following parents leads to roots: `roots` names each element's root, and `heights` falls toward it. */
  ghost predicate Forest(parents: seq<nat>, roots: seq<nat>, heights: seq<nat>)
  {
    |roots| == |heights| == |parents| && forall i :: 0 <= i < |parents| ==> Rooted(parents, roots, heights, i)
  }

  lemma {:induction false} ForestAt(parents: seq<nat>, roots: seq<nat>, heights: seq<nat>, i: nat)
    requires Forest(parents, roots, heights) && i < |parents|
    ensures Rooted(parents, roots, heights, i) && Rooted(parents, roots, heights, parents[i])
    ensures Rooted(parents, roots, heights, roots[i]) && roots[roots[i]] == roots[i]
  {
    assert Rooted(parents, roots, heights, i);
  }

  /** Path halving: an element may be hung under its grandparent, and no root changes. */
  lemma {:induction false} HalvingKeepsRoots(parents: seq<nat>, roots: seq<nat>, heights: seq<nat>, i: nat)
    requires Forest(parents, roots, heights) && i < |parents| && parents[i] != i
    ensures parents[i] < |parents| && parents[parents[i]] < |parents|
    ensures Forest(parents[i := parents[parents[i]]], roots, heights)
    ensures heights[parents[parents[i]]] < heights[i] && roots[parents[parents[i]]] == roots[i]
  {
    ForestAt(parents, roots, heights, i);
    ForestAt(parents, roots, heights, parents[i]);
    var halved := parents[i := parents[parents[i]]];
    forall j | 0 <= j < |parents| ensures Rooted(halved, roots, heights, j) {
      assert Rooted(parents, roots, heights, j);
    }
  }

  /** Hanging one root under another joins their classes and changes no other. */
  ghost function Joined(roots: seq<nat>, a: nat, b: nat): seq<nat>
  {
    seq(|roots|, i requires 0 <= i < |roots| => if roots[i] == a then b else roots[i])
  }

  ghost function Raised(roots: seq<nat>, heights: seq<nat>, a: nat, step: nat): seq<nat>
    requires |roots| == |heights|
  {
    seq(|roots|, i requires 0 <= i < |roots| => if roots[i] == a then heights[i] + step else heights[i])
  }

  lemma {:induction false} JoinedAt(parents: seq<nat>, roots: seq<nat>, heights: seq<nat>, a: nat, b: nat, i: nat)
    requires Forest(parents, roots, heights) && a < |parents| && b < |parents| && roots[a] == a && roots[b] == b && a != b
    requires i < |parents|
    ensures Rooted(parents[a := b], Joined(roots, a, b), Raised(roots, heights, a, heights[b] + 1), i)
  {
    ForestAt(parents, roots, heights, a);
    ForestAt(parents, roots, heights, b);
    ForestAt(parents, roots, heights, i);
    hide Forest;
    assert roots[i] != a ==> i != a;
  }

  lemma {:induction false} JoiningJoins(parents: seq<nat>, roots: seq<nat>, heights: seq<nat>, a: nat, b: nat)
    requires Forest(parents, roots, heights) && a < |parents| && b < |parents| && roots[a] == a && roots[b] == b && a != b
    ensures Forest(parents[a := b], Joined(roots, a, b), Raised(roots, heights, a, heights[b] + 1))
  {
    var p, r, h := parents[a := b], Joined(roots, a, b), Raised(roots, heights, a, heights[b] + 1);
    forall i | 0 <= i < |p| ensures Rooted(p, r, h, i) { JoinedAt(parents, roots, heights, a, b, i); }
  }

  lemma {:induction false} JoiningNothing(roots: seq<nat>, a: nat)
    ensures Joined(roots, a, a) == roots
  {}

  lemma {:induction false} ForestGrows(parents: seq<nat>, roots: seq<nat>, heights: seq<nat>)
    requires Forest(parents, roots, heights)
    ensures Forest(parents + [|parents|], roots + [|parents|], heights + [0])
  {
    forall i | 0 <= i <= |parents| ensures Rooted(parents + [|parents|], roots + [|parents|], heights + [0], i) {
      if i < |parents| { assert Rooted(parents, roots, heights, i); }
    }
  }

  // ---------------------------------------------------------------- roots and edges

  /** Two elements have one root exactly when the edges connect them. */
  ghost predicate RootsConnect(roots: seq<nat>, edges: Edges)
  {
    && (forall i, j :: (i, j) in edges ==> i < |roots| && j < |roots| && roots[i] == roots[j])
    && (forall i, j :: 0 <= i < |roots| && 0 <= j < |roots| && roots[i] == roots[j] ==> Connected(edges, i, j))
  }

  lemma {:induction false} RootsConnectBothWays(roots: seq<nat>, edges: Edges, i: nat, j: nat)
    requires RootsConnect(roots, edges) && i < |roots| && j < |roots|
    ensures roots[i] == roots[j] <==> Connected(edges, i, j)
  {
    if Connected(edges, i, j) { SameAlongPath(edges, (k: nat) => if k < |roots| then roots[k] else k, i, j); }
  }

  /** A new edge between `i` and `t` and the joining of their roots go together. */
  lemma {:induction false} EdgeJoins(roots: seq<nat>, edges: Edges, i: nat, t: nat)
    requires RootsConnect(roots, edges) && i < |roots| && t < |roots|
    ensures RootsConnect(Joined(roots, roots[i], roots[t]), edges + {(i, t)})
  {
    var more := edges + {(i, t)};
    var now := Joined(roots, roots[i], roots[t]);
    assert Adjacent(more, i, t) && Adjacent(more, t, i);
    ConnectedEdge(more, i, t);
    ConnectedEdge(more, t, i);
    forall x, y | 0 <= x < |now| && 0 <= y < |now| && now[x] == now[y] ensures Connected(more, x, y) {
      JoinedConnect(roots, edges, i, t, x, y);
    }
  }

  lemma {:induction false} JoinedConnect(roots: seq<nat>, edges: Edges, i: nat, t: nat, x: nat, y: nat)
    requires RootsConnect(roots, edges) && i < |roots| && t < |roots| && x < |roots| && y < |roots|
    requires Joined(roots, roots[i], roots[t])[x] == Joined(roots, roots[i], roots[t])[y]
    requires Connected(edges + {(i, t)}, i, t) && Connected(edges + {(i, t)}, t, i)
    ensures Connected(edges + {(i, t)}, x, y)
  {
    var more := edges + {(i, t)};
    hide Connected;
    if roots[x] == roots[y] {
      MoreEdges(edges, more, x, y);
    } else if roots[x] == roots[i] {
      MoreEdges(edges, more, x, i);
      MoreEdges(edges, more, t, y);
      ConnectedOn(more, x, i, t);
      ConnectedOn(more, x, t, y);
    } else {
      MoreEdges(edges, more, x, t);
      MoreEdges(edges, more, i, y);
      ConnectedOn(more, x, t, i);
      ConnectedOn(more, x, i, y);
    }
  }

  lemma {:induction false} RootsGrow(roots: seq<nat>, edges: Edges)
    requires RootsConnect(roots, edges) && forall i :: 0 <= i < |roots| ==> roots[i] < |roots|
    ensures RootsConnect(roots + [|roots|], edges)
  {
    var now := roots + [|roots|];
    forall i, j | 0 <= i < |now| && 0 <= j < |now| && now[i] == now[j] ensures Connected(edges, i, j) {
      if i == |roots| { ConnectedSelf(edges, i); }
    }
  }

  // ---------------------------------------------------------------- the state of a selection

  /** The tables of a module set, and the edges visited so far. */
  datatype Shape = Shape(modules: seq<Module>, names: map<string, nat>, visits: seq<Visit>, order: seq<nat>,
                         roots: seq<nat>, edges: Edges)

  ghost predicate Indexed(s: Shape)
  {
    && |s.visits| == |s.modules| && |s.roots| == |s.modules|
    && (forall i :: 0 <= i < |s.modules| ==> s.modules[i].name in s.names && s.names[s.modules[i].name] == i)
    && (forall n <- s.names :: s.names[n] < |s.modules| && s.modules[s.names[n]].name == n)
  }

  ghost predicate Done(s: Shape, i: nat)
  {
    i < |s.visits| && s.visits[i].Complete?
  }

  /** Exactly the completed modules are in order, each once, behind their dependencies, which are all known. */
  ghost predicate InOrder(s: Shape)
  {
    && (forall i, j :: 0 <= i < j < |s.order| ==> s.order[i] != s.order[j])
    && (forall i: nat :: i in s.order <==> Done(s, i))
    && Ordered(s.modules, s.order)
  }

  /** Every dependency of this module is known. */
  ghost predicate Satisfied(s: Shape, i: nat)
    requires i < |s.modules|
  {
    forall d <- s.modules[i].dependencies :: d in s.names
  }

  ghost predicate AllSatisfied(s: Shape)
  {
    forall i :: 0 <= i < |s.modules| && Done(s, i) ==> Satisfied(s, i)
  }

  /** The edges are dependencies between modules of one runtime, and all of a completed module's. */
  ghost predicate Edged(s: Shape)
  {
    && (forall i: nat, j: nat :: (i, j) in s.edges ==> DependsOn(s.modules, i, j) && s.modules[i].runtime == s.modules[j].runtime)
    && (forall i: nat, j: nat :: Done(s, i) && DependsOn(s.modules, i, j) ==> (i, j) in s.edges)
  }

  /** A module has no dependencies. */
  ghost predicate Leaf(s: Shape, i: nat)
  {
    i < |s.modules| && s.modules[i].dependencies == []
  }

  /** A root other than the module itself has no dependencies, and neither has the root of a completed module. */
  ghost predicate Leafy(s: Shape)
  {
    && (forall i :: 0 <= i < |s.roots| ==> s.roots[i] == i || Leaf(s, s.roots[i]))
    && (forall i :: 0 <= i < |s.roots| && Done(s, i) ==> Leaf(s, s.roots[i]))
  }

  ghost predicate Good(s: Shape)
  {
    Indexed(s) && InOrder(s) && AllSatisfied(s) && Edged(s) && RootsConnect(s.roots, s.edges) && Leafy(s)
    && forall i :: 0 <= i < |s.roots| ==> s.roots[i] < |s.roots|
  }

  function Appended(s: Shape, m: Module): Shape
  {
    s.(modules := s.modules + [m], names := s.names[m.name := |s.modules|], visits := s.visits + [Unseen],
       roots := s.roots + [|s.modules|])
  }

  /** Nothing changed, or one unseen module was added. */
  ghost predicate OneMore(s: Shape, t: Shape)
  {
    t == s || (t.modules != [] && t == Appended(s, t.modules[|t.modules| - 1]))
  }

  lemma {:induction false} AppendKeeps(s: Shape, m: Module)
    requires Good(s) && m.name !in s.names
    ensures Good(Appended(s, m))
  {
    var t := Appended(s, m);
    RootsGrow(s.roots, s.edges);
    forall i: nat ensures Done(t, i) <==> Done(s, i) {}
    AppendDepends(s, m);
    hide RootsConnect;
    assert Ordered(t.modules, t.order) by {
      forall p, j: nat | 0 <= p < |t.order| && DependsOn(t.modules, t.order[p], j) ensures j in t.order[..p] {
        assert Done(s, t.order[p]) by { assert t.order[p] in s.order; }
      }
    }
    assert Edged(t);
  }

  /** Nothing completed depends on a module that was not known. */
  lemma {:induction false} AppendDepends(s: Shape, m: Module)
    requires Indexed(s) && AllSatisfied(s) && m.name !in s.names
    ensures forall i: nat, j: nat :: Done(s, i) ==> (DependsOn(Appended(s, m).modules, i, j) <==> DependsOn(s.modules, i, j))
  {
    forall i: nat, j: nat | Done(s, i) ensures DependsOn(Appended(s, m).modules, i, j) <==> DependsOn(s.modules, i, j) {
      assert Satisfied(s, i);
    }
  }

  function Started(s: Shape, i: nat): Shape
    requires i < |s.visits|
  {
    s.(visits := s.visits[i := Visiting])
  }

  lemma {:induction false} StartKeeps(s: Shape, i: nat)
    requires Good(s) && i < |s.visits| && s.visits[i].Unseen?
    ensures Good(Started(s, i))
  {
    var t := Started(s, i);
    forall j: nat ensures Done(t, j) <==> Done(s, j) {}
    hide RootsConnect, Ordered, DependsOn;
    assert AllSatisfied(t) by { forall j | 0 <= j < |t.modules| && Done(t, j) ensures Satisfied(t, j) { assert Satisfied(s, j); } }
  }

  ghost function Linked(s: Shape, i: nat, t: nat): Shape
    requires i < |s.roots| && t < |s.roots|
  {
    s.(edges := s.edges + {(i, t)}, roots := Joined(s.roots, s.roots[i], s.roots[t]))
  }

  lemma {:induction false} LinkKeeps(s: Shape, i: nat, t: nat)
    requires Good(s) && DependsOn(s.modules, i, t) && s.modules[i].runtime == s.modules[t].runtime && Done(s, t)
    ensures Good(Linked(s, i, t))
  {
    EdgeJoins(s.roots, s.edges, i, t);
    forall j: nat ensures Done(Linked(s, i, t), j) <==> Done(s, j) {}
    hide RootsConnect, Ordered, DependsOn;
  }

  ghost function Finished(s: Shape, i: nat): Shape
    requires i < |s.visits|
  {
    s.(visits := s.visits[i := Complete], order := s.order + [i])
  }

  lemma {:induction false} FinishKeeps(s: Shape, i: nat)
    requires Good(s) && i < |s.visits| && !s.visits[i].Complete? && Satisfied(s, i)
    requires forall j: nat :: DependsOn(s.modules, i, j) ==> Done(s, j) && (i, j) in s.edges
    ensures Good(Finished(s, i))
  {
    var t := Finished(s, i);
    forall j: nat ensures Done(t, j) <==> j == i || Done(s, j) {}
    assert i !in s.order by { assert !Done(s, i); }
    FinishOrdered(s, i);
    FinishLeafy(s, i);
    hide RootsConnect, Ordered, DependsOn;
    assert AllSatisfied(t) by { forall j | 0 <= j < |t.modules| && Done(t, j) ensures Satisfied(t, j) { assert Satisfied(s, j); } }
  }

  /** The root of a linked module has no dependencies: it is the root of its last one, or the module has none itself. */
  lemma {:induction false} FinishLeafy(s: Shape, i: nat)
    requires Good(s) && i < |s.visits| && Satisfied(s, i)
    requires forall j: nat :: DependsOn(s.modules, i, j) ==> Done(s, j) && (i, j) in s.edges
    ensures Leaf(s, s.roots[i])
  {
    hide Ordered;
    if s.modules[i].dependencies != [] {
      var d := s.modules[i].dependencies[0];
      assert d in s.names;
      assert DependsOn(s.modules, i, s.names[d]);
    }
  }

  lemma {:induction false} FinishOrdered(s: Shape, i: nat)
    requires Ordered(s.modules, s.order) && (forall j: nat :: j in s.order <==> Done(s, j))
    requires forall j: nat :: DependsOn(s.modules, i, j) ==> Done(s, j)
    ensures Ordered(s.modules, s.order + [i])
  {
    var order := s.order + [i];
    forall p, j: nat | 0 <= p < |order| && DependsOn(s.modules, order[p], j) ensures j in order[..p] {
      if p < |s.order| {
        assert order[..p] == s.order[..p];
      } else {
        assert order[..p] == s.order;
        assert Done(s, j);
      }
    }
  }

  // ---------------------------------------------------------------- progress

  /** What any reading or visiting keeps: modules, order and edges only grow, and nothing is un-visited. */
  ghost predicate Grows(s: Shape, t: Shape)
  {
    && s.modules <= t.modules && s.order <= t.order && s.edges <= t.edges && |s.visits| <= |t.visits|
    && (forall n <- s.names :: n in t.names && t.names[n] == s.names[n])
    && (forall i :: 0 <= i < |s.visits| ==> (s.visits[i].Visiting? <==> t.visits[i].Visiting?) && (s.visits[i].Complete? ==> t.visits[i].Complete?))
  }

  /** Every module added since has been completed. */
  ghost predicate NoneLeft(s: Shape, t: Shape)
  {
    forall i :: |s.visits| <= i < |t.visits| ==> t.visits[i].Complete?
  }

  lemma {:induction false} GrowsOn(s: Shape, t: Shape, u: Shape)
    requires Grows(s, t) && Grows(t, u)
    ensures Grows(s, u)
    ensures NoneLeft(s, t) && NoneLeft(t, u) ==> NoneLeft(s, u)
  {}

  /** Names of files that no visited module has: they run out. */
  ghost function Unstarted(world: World, s: Shape): set<string>
    requires |s.visits| == |s.modules|
  {
    (set p <- world.files :: world.files[p].name) - (set i | 0 <= i < |s.modules| && !s.visits[i].Unseen? :: s.modules[i].name)
  }

  lemma {:induction false} UnstartedShrinks(world: World, s: Shape, t: Shape)
    requires Grows(s, t) && |s.visits| == |s.modules| && |t.visits| == |t.modules|
    ensures Unstarted(world, t) <= Unstarted(world, s)
  {
    forall i | 0 <= i < |s.modules| && !s.visits[i].Unseen? ensures t.modules[i] == s.modules[i] && !t.visits[i].Unseen? {}
  }

  /** A module is a copy of this file. */
  ghost predicate Copy(m: Module, file: File)
  {
    m.name == file.name && m.fingerprint == file.fingerprint && m.package == file.package
  }

  /** A module is what its file says, read while no module was loaded. */
  ghost predicate FromFile(world: World, m: Module)
  {
    && !world.loaded && m.source in world.files && Copy(m, world.files[m.source])
    && m.folder == world.files[m.source].folder && m.dependencies == world.files[m.source].dependencies
  }

  ghost predicate FromWorld(world: World, modules: seq<Module>)
  {
    forall i :: 0 <= i < |modules| ==> FromFile(world, modules[i])
  }

  lemma {:induction false} FromWorldGrows(world: World, modules: seq<Module>, added: Module)
    requires FromWorld(world, modules) && FromFile(world, added)
    ensures FromWorld(world, modules + [added])
  {}

  lemma {:induction false} StartingShrinks(world: World, s: Shape, i: nat)
    requires Indexed(s) && i < |s.modules| && s.visits[i].Unseen? && FromWorld(world, s.modules)
    ensures Unstarted(world, Started(s, i)) < Unstarted(world, s)
  {
    var t := Started(s, i);
    var name := s.modules[i].name;
    assert t.visits[i].Visiting?;
    assert name !in Unstarted(world, t);
    assert name in Unstarted(world, s) by { assert FromFile(world, s.modules[i]); }
    forall n | n in Unstarted(world, t) ensures n in Unstarted(world, s) {
      forall j | 0 <= j < |s.modules| && !s.visits[j].Unseen? ensures s.modules[j].name != n { assert !t.visits[j].Unseen?; }
    }
  }

  /** A visit starts a module, completes its dependencies, and completes it. */
  lemma {:induction false} VisitedGrows(s: Shape, started: Shape, t: Shape, i: nat)
    requires i < |s.visits| && s.visits[i].Unseen? && started == Started(s, i) && Grows(started, t) && NoneLeft(started, t)
    ensures i < |t.visits| && t.visits[i].Visiting? && Grows(s, Finished(t, i)) && NoneLeft(s, Finished(t, i)) && Done(Finished(t, i), i)
  {}

  /** The first `n` dependencies of the module are completed and linked to it. */
  ghost predicate LinkedTo(s: Shape, i: nat, n: nat)
  {
    && i < |s.modules| && n <= |s.modules[i].dependencies|
    && forall k :: 0 <= k < n ==>
         var d := s.modules[i].dependencies[k];
         d in s.names && Done(s, s.names[d]) && (i, s.names[d]) in s.edges
  }

  lemma {:induction false} LinkedToNone(s: Shape, i: nat)
    requires i < |s.modules|
    ensures LinkedTo(s, i, 0)
  {}

  /** One more dependency: what was read or visited for it, and its edge. */
  lemma {:induction false} LinkedToNext(s: Shape, v: Shape, i: nat, n: nat, target: nat)
    requires Indexed(v) && LinkedTo(s, i, n) && Grows(s, v) && n < |s.modules[i].dependencies|
    requires target < |v.modules| && v.modules[target].name == s.modules[i].dependencies[n] && Done(v, target)
    ensures i < |v.roots| && target < |v.roots| && v.modules[i] == s.modules[i] && DependsOn(v.modules, i, target)
    ensures LinkedTo(Linked(v, i, target), i, n + 1)
  {
    forall k | 0 <= k < n
      ensures var d := s.modules[i].dependencies[k]; d in v.names && Done(v, v.names[d]) && (i, v.names[d]) in v.edges
    {
      var d := s.modules[i].dependencies[k];
      assert d in s.names;
    }
  }

  lemma {:induction false} FollowedGrows(s: Shape, r: Shape, v: Shape, i: nat, target: nat)
    requires Indexed(s) && Indexed(r) && Indexed(v) && Grows(s, r) && Grows(r, v) && NoneLeft(r, v) && Done(v, target)
    requires |r.modules| <= |s.modules| + 1 && (|r.modules| > |s.modules| ==> target == |s.modules|)
    requires i < |v.roots| && target < |v.roots|
    ensures Grows(s, Linked(v, i, target)) && NoneLeft(s, Linked(v, i, target)) && NoneLeft(s, v)
  {
    GrowsOn(s, r, v);
  }

  /** Every module completed since is one that this module needs. */
  ghost predicate OnlyNeeded(s: Shape, t: Shape, i: nat)
  {
    |s.order| <= |t.order| && forall p :: |s.order| <= p < |t.order| ==> Needs(t.modules, i, t.order[p])
  }

  lemma {:induction false} NeededOn(s: Shape, t: Shape, u: Shape, i: nat)
    requires OnlyNeeded(s, t, i) && OnlyNeeded(t, u, i) && Grows(t, u)
    ensures OnlyNeeded(s, u, i)
  {
    hide Needs;
    forall p | |s.order| <= p < |u.order| ensures Needs(u.modules, i, u.order[p]) {
      if p < |t.order| {
        assert u.order[p] == t.order[p];
        NeedsMore(t.modules, u.modules, i, t.order[p]);
      }
    }
  }

  /** What a dependency needs, its dependent needs. */
  lemma {:induction false} NeededThrough(s: Shape, t: Shape, u: Shape, i: nat, target: nat)
    requires OneMore(s, t) && OnlyNeeded(t, u, target) && DependsOn(u.modules, i, target)
    ensures OnlyNeeded(s, u, i)
  {
    hide Needs;
    forall p | |s.order| <= p < |u.order| ensures Needs(u.modules, i, u.order[p]) {
      NeedsOn(u.modules, i, target, u.order[p]);
    }
  }

  lemma {:induction false} NeededNone(s: Shape, i: nat)
    ensures OnlyNeeded(s, s, i)
  {}

  /** A visit completes what its dependencies need, and the module itself. */
  lemma {:induction false} VisitedNeeds(s: Shape, started: Shape, t: Shape, i: nat)
    requires i < |s.visits| && started == Started(s, i) && OnlyNeeded(started, t, i) && i < |t.visits|
    ensures OnlyNeeded(s, Finished(t, i), i)
  {
    NeedsSelf(t.modules, i);
    hide Needs;
  }

  /** The target of a dependency is completed, and its edge is all that is missing. */
  ghost predicate Attachable(s: Shape, v: Shape, i: nat, n: nat, target: nat)
    requires i < |s.modules| && n < |s.modules[i].dependencies|
  {
    && i < |v.roots| && target < |v.roots| && DependsOn(v.modules, i, target) && Done(v, target)
    && v.modules[i] == s.modules[i] && v.modules[target].name == s.modules[i].dependencies[n]
    && Grows(s, v) && NoneLeft(s, v)
    && Grows(s, Linked(v, i, target)) && NoneLeft(s, Linked(v, i, target)) && LinkedTo(Linked(v, i, target), i, n + 1)
  }

  lemma {:induction false} Attaching(s: Shape, r: Shape, v: Shape, i: nat, n: nat, target: nat)
    requires Indexed(s) && Indexed(r) && Indexed(v) && LinkedTo(s, i, n) && n < |s.modules[i].dependencies|
    requires Grows(s, r) && Grows(r, v) && NoneLeft(r, v) && Done(v, target)
    requires |r.modules| <= |s.modules| + 1 && (|r.modules| > |s.modules| ==> target == |s.modules|)
    requires target < |r.modules| && r.modules[target].name == s.modules[i].dependencies[n]
    ensures Attachable(s, v, i, n, target)
  {
    GrowsOn(s, r, v);
    assert v.modules[target] == r.modules[target];
    hide Linked, NoneLeft;
    LinkedToNext(s, v, i, n, target);
    FollowedGrows(s, r, v, i, target);
    hide Grows, LinkedTo;
  }

  /** Every dependency of the module is completed and linked. */
  lemma {:induction false} LinkingAll(s: Shape, i: nat)
    requires Indexed(s) && i < |s.modules| && LinkedTo(s, i, |s.modules[i].dependencies|)
    ensures Satisfied(s, i)
    ensures forall j: nat :: DependsOn(s.modules, i, j) ==> Done(s, j) && (i, j) in s.edges
  {
    forall j: nat | DependsOn(s.modules, i, j) ensures Done(s, j) && (i, j) in s.edges {
      var k :| 0 <= k < |s.modules[i].dependencies| && s.modules[i].dependencies[k] == s.modules[j].name;
    }
  }

  lemma {:induction false} StillGrows(s: Shape)
    ensures Grows(s, s) && NoneLeft(s, s)
  {}

  lemma {:induction false} AppendedGrows(s: Shape, m: Module)
    requires Indexed(s) && m.name !in s.names
    ensures Grows(s, Appended(s, m))
  {}

  // ---------------------------------------------------------------- files that fit together

  /** The file of a dependency next to the module that needs it. */
  function Sibling(world: World, directory: string, dependency: string): string
  {
    var package := directory + "/" + dependency + ".pak";
    if world.present(package) then package else directory + "/" + dependency + ".wasm"
  }

  /** Some files by canonical path, names of modules that were asked for, and how deep each name's dependencies go. */
  datatype Fit = Fit(files: set<string>, asked: set<string>, rank: map<string, nat>)

  /** Files of one module are copies of it, and different modules have different folders. */
  ghost predicate Agree(a: File, b: File)
  {
    if a.name == b.name then a.fingerprint == b.fingerprint && a.package == b.package else a.folder != b.folder
  }

  ghost predicate Reads(world: World, fit: Fit, path: string)
  {
    world.canonical(path).Some? && world.canonical(path).value in fit.files && world.canonical(path).value in world.files
  }

  /** A dependency has its file beside the dependent, or else was asked for. */
  ghost predicate Provided(world: World, fit: Fit, directory: string, dependency: string)
  {
    var sibling := Sibling(world, directory, dependency);
    if world.present(sibling)
    then Reads(world, fit, sibling) && world.files[world.canonical(sibling).value].name == dependency
    else dependency in fit.asked
  }

  /** A dependency is provided, is less deep, and has the same runtime. */
  ghost predicate Supported(world: World, fit: Fit, path: string, dependency: string)
    requires fit.files <= world.files.Keys && path in fit.files && world.files[path].name in fit.rank
  {
    && Provided(world, fit, world.directory(path), dependency)
    && dependency in fit.rank && fit.rank[dependency] < fit.rank[world.files[path].name]
    && forall other <- fit.files :: world.files[other].name == dependency ==> world.files[other].runtime == world.files[path].runtime
  }

  /** Nothing stands in the way of linking these files. */
  ghost predicate FitTogether(world: World, fit: Fit)
  {
    && !world.loaded && fit.files <= world.files.Keys
    && (forall p <- fit.files, q <- fit.files :: Agree(world.files[p], world.files[q]))
    && (forall p <- fit.files :: world.files[p].name in fit.rank)
    && (forall p <- fit.files :: forall d <- world.files[p].dependencies :: Supported(world, fit, p, d))
  }

  /** A module is what one of the files says. */
  ghost predicate ReadFrom(world: World, fit: Fit, hashes: map<string, nat>, m: Module)
    requires fit.files <= world.files.Keys
  {
    && m.source in fit.files
    && var file := world.files[m.source];
       && m.name == file.name && m.folder == file.folder && m.dependencies == file.dependencies
       && m.fingerprint == file.fingerprint && m.package == file.package
       && file.runtime in hashes && hashes[file.runtime] == m.runtime
  }

  /** No module on the way to this one is as shallow as it is. */
  ghost predicate Above(modules: seq<Module>, visits: seq<Visit>, fit: Fit, index: nat)
    requires index < |modules|
  {
    && modules[index].name in fit.rank
    && forall j :: 0 <= j < |visits| && j < |modules| && visits[j].Visiting? ==>
         modules[j].name in fit.rank && fit.rank[modules[index].name] < fit.rank[modules[j].name]
  }

  /** This module is on the way, and all others on the way are deeper. */
  ghost predicate OnTop(modules: seq<Module>, visits: seq<Visit>, fit: Fit, index: nat)
    requires index < |modules|
  {
    && modules[index].name in fit.rank
    && forall j :: 0 <= j < |visits| && j < |modules| && visits[j].Visiting? ==>
         modules[j].name in fit.rank && fit.rank[modules[index].name] <= fit.rank[modules[j].name]
  }

  /** All modules are what files say, under their folders. */
  ghost predicate AllFit(world: World, fit: Fit, hashes: map<string, nat>, modules: seq<Module>, folders: map<string, nat>)
    requires fit.files <= world.files.Keys
  {
    && (forall i :: 0 <= i < |modules| ==> ReadFrom(world, fit, hashes, modules[i]))
    && (forall f <- folders :: folders[f] < |modules| && modules[folders[f]].folder == f)
  }

  lemma {:induction false} AllFitGrows(world: World, fit: Fit, hashes: map<string, nat>, modules: seq<Module>, folders: map<string, nat>,
                                       added: Module)
    requires fit.files <= world.files.Keys && AllFit(world, fit, hashes, modules, folders) && ReadFrom(world, fit, hashes, added)
    ensures AllFit(world, fit, hashes, modules + [added], folders[added.folder := |modules|])
  {
    hide ReadFrom;
  }

  /** The module at `index` is a copy of the file at this canonical path. */
  ghost predicate KnownIn(world: World, modules: seq<Module>, path: string, index: nat)
  {
    index < |modules| && path in world.files && Copy(modules[index], world.files[path])
  }

  /** Paths lead to copies of their files, and folders to the one module in them. */
  ghost predicate AllKnown(world: World, modules: seq<Module>, paths: map<string, nat>, folders: map<string, nat>)
  {
    && (forall p <- paths :: KnownIn(world, modules, p, paths[p]))
    && (forall f <- folders :: folders[f] < |modules|)
    && (forall i :: 0 <= i < |modules| ==> modules[i].folder in folders && folders[modules[i].folder] == i)
  }

  lemma {:induction false} AllKnownGrows(world: World, modules: seq<Module>, paths: map<string, nat>, folders: map<string, nat>,
                                         added: Module, path: string)
    requires AllKnown(world, modules, paths, folders) && path in world.files && Copy(added, world.files[path])
    requires added.folder !in folders
    ensures AllKnown(world, modules + [added], paths[path := |modules|], folders[added.folder := |modules|])
    ensures KnownIn(world, modules + [added], path, |modules|)
  {}

  // ---------------------------------------------------------------- runtimes, and files beside dependents

  /** Every runtime is listed once, and its fingerprint leads to it. */
  ghost predicate Hashed(runtimes: seq<string>, hashes: map<string, nat>)
  {
    && (forall h <- hashes :: hashes[h] < |runtimes| && runtimes[hashes[h]] == h)
    && (forall k :: 0 <= k < |runtimes| ==> runtimes[k] in hashes && hashes[runtimes[k]] == k)
  }

  /** Every module has the runtime its file was built against. */
  ghost predicate RunsOn(world: World, modules: seq<Module>, runtimes: seq<string>)
  {
    forall i :: 0 <= i < |modules| ==>
      modules[i].runtime < |runtimes| && modules[i].source in world.files && runtimes[modules[i].runtime] == world.files[modules[i].source].runtime
  }

  /** A path that reads as a file of this name, which one of the modules is a copy of. */
  ghost predicate Copied(world: World, modules: seq<Module>, path: string, name: string)
  {
    && world.canonical(path).Some? && world.canonical(path).value in world.files && world.files[world.canonical(path).value].name == name
    && exists i :: 0 <= i < |modules| && Copy(modules[i], world.files[world.canonical(path).value])
  }

  /** The file of a dependency beside its dependent, a package before a bare module, is what the dependency means. */
  ghost predicate Beside(world: World, modules: seq<Module>, directory: string, dependency: string)
  {
    if world.present(directory + "/" + dependency + ".pak") then Copied(world, modules, directory + "/" + dependency + ".pak", dependency)
    else world.present(directory + "/" + dependency + ".wasm") ==> Copied(world, modules, directory + "/" + dependency + ".wasm", dependency)
  }

  /** So it is for the first `n` dependencies of a module. */
  ghost predicate BesideTo(world: World, modules: seq<Module>, m: Module, n: nat)
  {
    n <= |m.dependencies| && forall k :: 0 <= k < n ==> Beside(world, modules, world.directory(m.source), m.dependencies[k])
  }

  /** So it is for all completed modules. */
  ghost predicate AllBeside(world: World, modules: seq<Module>, visits: seq<Visit>)
  {
    forall i :: 0 <= i < |visits| && i < |modules| && visits[i].Complete? ==> BesideTo(world, modules, modules[i], |modules[i].dependencies|)
  }

  lemma {:induction false} CopiedStays(world: World, modules: seq<Module>, more: seq<Module>, path: string, name: string)
    requires modules <= more && Copied(world, modules, path, name)
    ensures Copied(world, more, path, name)
  {
    var i :| 0 <= i < |modules| && Copy(modules[i], world.files[world.canonical(path).value]);
    assert Copy(more[i], world.files[world.canonical(path).value]);
  }

  lemma {:induction false} BesideStays(world: World, modules: seq<Module>, more: seq<Module>, m: Module, n: nat)
    requires modules <= more && BesideTo(world, modules, m, n)
    ensures BesideTo(world, more, m, n)
  {
    forall k | 0 <= k < n ensures Beside(world, more, world.directory(m.source), m.dependencies[k]) {
      var path := world.directory(m.source) + "/" + m.dependencies[k];
      assert Beside(world, modules, world.directory(m.source), m.dependencies[k]);
      if world.present(path + ".pak") {
        CopiedStays(world, modules, more, path + ".pak", m.dependencies[k]);
      } else if world.present(path + ".wasm") {
        CopiedStays(world, modules, more, path + ".wasm", m.dependencies[k]);
      }
    }
  }

  lemma {:induction false} AllBesideGrows(world: World, modules: seq<Module>, visits: seq<Visit>, added: Module)
    requires AllBeside(world, modules, visits) && |visits| == |modules|
    ensures AllBeside(world, modules + [added], visits + [Unseen])
  {
    var more := modules + [added];
    forall i | 0 <= i < |visits| && visits[i].Complete? ensures BesideTo(world, more, more[i], |more[i].dependencies|) {
      assert more[i] == modules[i];
      BesideStays(world, modules, more, modules[i], |modules[i].dependencies|);
    }
  }

  lemma {:induction false} BesideNone(world: World, modules: seq<Module>, m: Module)
    ensures BesideTo(world, modules, m, 0)
  {}

  lemma {:induction false} BesideNext(world: World, modules: seq<Module>, more: seq<Module>, m: Module, n: nat)
    requires modules <= more && BesideTo(world, modules, m, n) && n < |m.dependencies|
    requires Beside(world, more, world.directory(m.source), m.dependencies[n])
    ensures BesideTo(world, more, m, n + 1)
  {
    BesideStays(world, modules, more, m, n);
    hide Beside;
  }

  // ---------------------------------------------------------------- the module set

  class Selection {
    const world: World
    ghost const fit: Fit
    var modules: seq<Module>
    var order: seq<nat>
    var runtimes: seq<string>
    var names: map<string, nat>
    var folders: map<string, nat>
    var paths: map<string, nat>
    var runtimeHashes: map<string, nat>
    var groupParents: seq<nat>
    var visits: seq<Visit>
    ghost var roots: seq<nat>
    ghost var heights: seq<nat>
    ghost var edges: Edges

    ghost function State(): Shape
      reads this
    {
      Shape(modules, names, visits, order, roots, edges)
    }

    /** The module at `index` is what the file at this canonical path says it is. */
    ghost predicate Known(path: string, index: nat)
      reads this`modules
    {
      KnownIn(world, modules, path, index)
    }

    /** The path was asked for and read. */
    ghost predicate Selected(path: string)
      reads this
    {
      world.canonical(path).Some? && world.canonical(path).value in paths
    }

    ghost predicate Valid()
      reads this
    {
      Good(State()) && Forest(groupParents, roots, heights) && FromWorld(world, modules) && Tabled() && AllBeside(world, modules, visits)
    }

    /** The tables by path, folder and runtime lead to what there is. */
    ghost predicate Tabled()
      reads this`modules, this`paths, this`folders, this`runtimes, this`runtimeHashes
    {
      AllKnown(world, modules, paths, folders) && Hashed(runtimes, runtimeHashes) && RunsOn(world, modules, runtimes)
    }

    /** All modules so far come from the files that fit together. */
    ghost predicate Fitting()
      reads this`modules, this`folders, this`runtimeHashes
    {
      FitTogether(world, fit) && AllFit(world, fit, runtimeHashes, modules, folders)
    }

    /** Everything that was asked for has been read. */
    ghost predicate Asked()
      reads this`names
    {
      fit.asked <= names.Keys
    }

    constructor (world: World, ghost fit: Fit)
      ensures Valid() && modules == [] && order == [] && this.world == world && this.fit == fit
      ensures FitTogether(world, fit) ==> Fitting()
    {
      this.world, this.fit := world, fit;
      modules, order, runtimes, groupParents, visits := [], [], [], [], [];
      names, folders, paths, runtimeHashes := map[], map[], map[], map[];
      roots, heights, edges := [], [], {};
    }

    /** The root of a module's group; the path to it is halved on the way. */
    method Group(index: nat) returns (root: nat)
      requires Forest(groupParents, roots, heights) && index < |groupParents|
      modifies this`groupParents
      ensures Forest(groupParents, roots, heights) && |groupParents| == old(|groupParents|)
      ensures root < |groupParents| == |roots| && root == roots[index] == roots[root] && groupParents[root] == root
    {
      root := index;
      assert |roots| == |heights| == |groupParents|;
      hide Forest;
      ForestAt(groupParents, roots, heights, index);
      while groupParents[root] != root
        invariant Forest(groupParents, roots, heights) && root < |groupParents| && |groupParents| == old(|groupParents|)
        invariant |roots| == |heights| == |groupParents| && roots[root] == roots[index]
        decreases heights[root]
      {
        ForestAt(groupParents, roots, heights, root);
        HalvingKeepsRoots(groupParents, roots, heights, root);
        groupParents := groupParents[root := groupParents[groupParents[root]]];
        root := groupParents[root];
      }
      ForestAt(groupParents, roots, heights, root);
    }

    /** `Read_Runtime`: runtimes with the same fingerprint are one. */
    method ReadRuntime(fingerprint: string) returns (index: nat)
      requires Hashed(runtimes, runtimeHashes)
      modifies this`runtimes, this`runtimeHashes
      ensures Hashed(runtimes, runtimeHashes) && old(runtimes) <= runtimes
      ensures runtimeHashes == old(runtimeHashes)[fingerprint := index]
      ensures old(fingerprint in runtimeHashes) ==> index == old(runtimeHashes)[fingerprint]
    {
      if fingerprint in runtimeHashes { return runtimeHashes[fingerprint]; }
      index := |runtimes|;
      runtimeHashes := runtimeHashes[fingerprint := index];
      runtimes := runtimes + [fingerprint];
    }

    /** A module is read once per path, and copies of one module once in all. Files that fit together can be read. */
    method Read(path: string) returns (index: Option<nat>)
      requires Valid()
      modifies this
      ensures Valid()
      ensures Grows(old(State()), State()) && old(paths.Keys) <= paths.Keys
      ensures index.Some? ==> index.value < |modules| && Selected(path)
      ensures |modules| <= old(|modules|) + 1 && (|modules| > old(|modules|) ==> index == Some(old(|modules|)))
      ensures index.Some? ==> Known(world.canonical(path).value, index.value)
                              && paths == old(paths)[world.canonical(path).value := index.value]
      ensures index.None? ==> paths == old(paths)
      ensures OneMore(old(State()), State())
      ensures old(Selected(path)) ==> index == Some(old(paths[world.canonical(path).value])) && |modules| == old(|modules|)
      ensures old(Fitting()) && Reads(world, fit, path) ==> index.Some? && Fitting()
    {
      Sizes();
      StillGrows(State());
      hide Good, Forest, FromWorld, Grows, FitTogether, ReadFrom;
      var canonical := world.canonical(path);
      if canonical.None? { return None; }
      if canonical.value in paths { return Some(paths[canonical.value]); }
      if world.loaded || canonical.value !in world.files { return None; }
      index := ReadFile(canonical.value);
    }

    /** A file that was not read before. */
    method ReadFile(path: string) returns (index: Option<nat>)
      requires Valid() && path in world.files && path !in paths && !world.loaded
      modifies this
      ensures Valid() && Grows(old(State()), State())
      ensures |modules| <= old(|modules|) + 1 && (|modules| > old(|modules|) ==> index == Some(old(|modules|)))
      ensures index.Some? ==> Known(path, index.value) && paths == old(paths)[path := index.value]
      ensures index.None? ==> paths == old(paths)
      ensures OneMore(old(State()), State())
      ensures old(Fitting()) && path in fit.files ==> index.Some? && Fitting()
    {
      hide Good, Forest, FromWorld, Grows, FitTogether, ReadFrom;
      ghost var hashes := runtimeHashes;
      var runtime := ReadRuntime(world.files[path].runtime);
      HashesStayFitting(hashes);
      index := AddFile(path, runtime);
    }

    lemma {:induction false} HashesStayFitting(hashes: map<string, nat>)
      requires forall h <- hashes :: h in runtimeHashes && runtimeHashes[h] == hashes[h]
      ensures FitTogether(world, fit) && (forall i :: 0 <= i < |modules| ==> ReadFrom(world, fit, hashes, modules[i])) ==>
                forall i :: 0 <= i < |modules| ==> ReadFrom(world, fit, runtimeHashes, modules[i])
    {}

    method AddFile(path: string, runtime: nat) returns (index: Option<nat>)
      requires Valid() && path in world.files && path !in paths && !world.loaded
      requires world.files[path].runtime in runtimeHashes && runtimeHashes[world.files[path].runtime] == runtime
      modifies this`modules, this`visits, this`names, this`folders, this`paths, this`groupParents, this`roots, this`heights
      ensures Valid() && Grows(old(State()), State())
      ensures |modules| <= old(|modules|) + 1 && (|modules| > old(|modules|) ==> index == Some(old(|modules|)))
      ensures index.Some? ==> Known(path, index.value) && paths == old(paths)[path := index.value]
      ensures index.None? ==> paths == old(paths)
      ensures OneMore(old(State()), State())
      ensures old(Fitting()) && path in fit.files ==> index.Some? && Fitting()
    {
      hide Good, Forest, FromWorld, Grows, FitTogether, ReadFrom, Indexed, AllBeside, Fitting, Hashed, RunsOn;
      Sizes();
      StillGrows(State());
      NameKnown();
      FileFits(path);
      var file := world.files[path];
      ModuleFits(path, runtime);
      RuntimeKnown(file.runtime);
      if file.name in names {
        var known := names[file.name];
        if modules[known].fingerprint != file.fingerprint || modules[known].package != file.package { return None; }
        paths := paths[path := known];
        return Some(known);
      }
      if file.folder in folders { return None; }
      index := Some(|modules|);
      ghost var was := State();
      var added := Module(file.name, file.folder, path, file.dependencies, runtime, file.fingerprint, file.package);
      Add(added, path);
      AppendedGrows(was, added);
    }

    lemma {:induction false} RuntimeKnown(fingerprint: string)
      requires Valid() && fingerprint in runtimeHashes
      ensures runtimeHashes[fingerprint] < |runtimes| && runtimes[runtimeHashes[fingerprint]] == fingerprint
    {}

    lemma {:induction false} ModuleFits(path: string, runtime: nat)
      requires path in world.files && world.files[path].runtime in runtimeHashes && runtimeHashes[world.files[path].runtime] == runtime
      ensures var file := world.files[path];
              Fitting() && path in fit.files ==>
                ReadFrom(world, fit, runtimeHashes,
                         Module(file.name, file.folder, path, file.dependencies, runtime, file.fingerprint, file.package))
    {}

    lemma {:induction false} NameKnown()
      requires Valid()
      ensures forall n <- names :: names[n] < |modules| && modules[names[n]].name == n
    {}

    /** A file that fits is no other version of a module, and its folder is not taken by another. */
    lemma {:induction false} FileFits(path: string)
      requires Valid() && path in world.files
      ensures var file := world.files[path];
              Fitting() && path in fit.files ==>
                if file.name in names
                then modules[names[file.name]].fingerprint == file.fingerprint && modules[names[file.name]].package == file.package
                else file.folder !in folders
    {
      hide Good, Forest, FromWorld, Supported;
      NameKnown();
      Sizes();
      var file := world.files[path];
      if Fitting() && path in fit.files {
        if file.name in names {
          assert ReadFrom(world, fit, runtimeHashes, modules[names[file.name]]);
          assert Agree(world.files[modules[names[file.name]].source], file);
        } else {
          forall f <- folders ensures f != file.folder {
            var m := modules[folders[f]];
            assert ReadFrom(world, fit, runtimeHashes, m);
            assert m.name in names && m.name != file.name;
            assert Agree(world.files[m.source], file);
          }
        }
      }
    }

    method Add(added: Module, path: string)
      requires Valid() && added.name !in names && added.folder !in folders && FromFile(world, added) && added.source == path
      requires added.runtime < |runtimes| && runtimes[added.runtime] == world.files[path].runtime
      modifies this`modules, this`visits, this`names, this`folders, this`paths, this`groupParents, this`roots, this`heights
      ensures Valid() && State() == Appended(old(State()), added)
      ensures paths == old(paths)[path := old(|modules|)] && Known(path, old(|modules|))
      ensures old(Fitting() && ReadFrom(world, fit, runtimeHashes, added)) ==> Fitting()
    {
      hide Good, Forest, FromWorld, AllKnown, AllFit, FitTogether, ReadFrom, KnownIn, AllBeside, Hashed, RunsOn, FromFile;
      AddKeeps(added, path);
      Sizes();
      Insert(added, path);
    }

    /** What `Valid` and `Fitting` will say once the module is added. */
    lemma {:induction false} AddKeeps(added: Module, path: string)
      requires Valid() && added.name !in names && added.folder !in folders && FromFile(world, added) && added.source == path
      requires added.runtime < |runtimes| && runtimes[added.runtime] == world.files[path].runtime
      ensures Good(Appended(State(), added)) && FromWorld(world, modules + [added])
      ensures Forest(groupParents + [|modules|], roots + [|modules|], heights + [0])
      ensures var index := |modules|; AllKnown(world, modules + [added], paths[path := index], folders[added.folder := index])
      ensures Hashed(runtimes, runtimeHashes) && RunsOn(world, modules + [added], runtimes) && KnownIn(world, modules + [added], path, |modules|)
      ensures AllBeside(world, modules + [added], visits + [Unseen])
      ensures Fitting() && ReadFrom(world, fit, runtimeHashes, added) ==>
                FitTogether(world, fit) && AllFit(world, fit, runtimeHashes, modules + [added], folders[added.folder := |modules|])
    {
      hide Good, Forest, FromWorld, AllKnown, KnownIn, AllBeside, Hashed, ReadFrom, AllFit, Indexed;
      Sizes();
      AppendKeeps(State(), added);
      ForestGrows(groupParents, roots, heights);
      FromWorldGrows(world, modules, added);
      AllKnownGrows(world, modules, paths, folders, added, path);
      AllBesideGrows(world, modules, visits, added);
      if Fitting() && ReadFrom(world, fit, runtimeHashes, added) {
        AllFitGrows(world, fit, runtimeHashes, modules, folders, added);
      }
    }

    method Insert(added: Module, path: string)
      requires |roots| == |modules|
      modifies this`modules, this`visits, this`names, this`folders, this`paths, this`groupParents, this`roots, this`heights
      ensures State() == Appended(old(State()), added)
      ensures groupParents == old(groupParents) + [|old(modules)|] && heights == old(heights) + [0]
      ensures folders == old(folders)[added.folder := |old(modules)|] && paths == old(paths)[path := |old(modules)|]
    {
      hide Valid, Tabled, Fitting, Asked;
      var index := |modules|;
      names, folders, paths := names[added.name := index], folders[added.folder := index], paths[path := index];
      groupParents, roots, heights := groupParents + [index], roots + [index], heights + [0];
      modules, visits := modules + [added], visits + [Unseen];
    }

    /** The groups of a module and of its dependency become one. */
    method Unite(index: nat, target: nat)
      requires Valid() && DependsOn(modules, index, target) && modules[index].runtime == modules[target].runtime && Done(State(), target)
      modifies this`groupParents, this`roots, this`heights, this`edges
      ensures Valid() && State() == Linked(old(State()), index, target)
    {
      LinkKeeps(State(), index, target);
      assert |roots| == |modules| == |groupParents|;
      hide Good, FromWorld, Tabled;
      Join(index, target);
    }

    /** `groupParents[Group(index)] = Group(target)`. */
    method Join(index: nat, target: nat)
      requires Forest(groupParents, roots, heights) && index < |groupParents| && target < |groupParents|
      modifies this`groupParents, this`roots, this`heights, this`edges
      ensures Forest(groupParents, roots, heights) && |old(roots)| == |old(groupParents)|
      ensures roots == Joined(old(roots), old(roots)[index], old(roots)[target]) && edges == old(edges) + {(index, target)}
    {
      ForestAt(groupParents, roots, heights, index);
      ForestAt(groupParents, roots, heights, target);
      assert |roots| == |heights| == |groupParents|;
      var under := Group(target);
      var root := Group(index);
      hide Forest;
      edges := edges + {(index, target)};
      if root == under {
        JoiningNothing(roots, root);
        assert groupParents[root := under] == groupParents;
      } else {
        JoiningJoins(groupParents, roots, heights, root, under);
        heights := Raised(roots, heights, root, heights[under] + 1);
        roots := Joined(roots, root, under);
      }
      groupParents := groupParents[root := under];
    }

    /** The module a dependency means: the file beside the dependent if there is one, else a module read before. */
    method Resolve(directory: string, dependency: string) returns (target: Option<nat>)
      requires Valid()
      modifies this
      ensures Valid() && Grows(old(State()), State())
      ensures target.Some? ==> target.value < |modules| && modules[target.value].name == dependency
      ensures target.Some? ==> |modules| <= old(|modules|) + 1 && (|modules| > old(|modules|) ==> target.value == old(|modules|))
      ensures OneMore(old(State()), State())
      ensures target.Some? ==> Beside(world, modules, directory, dependency)
      ensures old(Fitting() && Asked()) && Provided(world, fit, directory, dependency) ==> target.Some? && Fitting()
    {
      hide Good, Forest, FromWorld, Grows, FitTogether, ReadFrom, Fitting, Indexed, Tabled;
      StillGrows(State());
      NameKnown();
      var sibling := Sibling(world, directory, dependency);
      if world.present(sibling) {
        target := Read(sibling);
      } else if dependency in names {
        target := Some(names[dependency]);
      } else {
        return None;
      }
      if target.Some? && modules[target.value].name != dependency { return None; }
      if target.Some? { FoundBeside(directory, dependency, target.value); }
    }

    lemma {:induction false} FoundBeside(directory: string, dependency: string, target: nat)
      requires target < |modules| && modules[target].name == dependency
      requires var sibling := Sibling(world, directory, dependency);
               world.present(sibling) ==> world.canonical(sibling).Some? && Known(world.canonical(sibling).value, target)
      ensures Beside(world, modules, directory, dependency)
    {
      var sibling := Sibling(world, directory, dependency);
      assert world.present(sibling) ==> Copied(world, modules, sibling, dependency);
    }

    method Start(index: nat)
      requires Valid() && index < |modules| && visits[index].Unseen?
      modifies this`visits
      ensures Valid() && |old(visits)| > index && State() == Started(old(State()), index)
    {
      StartKeeps(State(), index);
      assert |visits| == |modules|;
      hide Good, Forest, FromWorld, Tabled;
      visits := visits[index := Visiting];
    }

    method Finish(index: nat)
      requires Valid() && index < |modules| && visits[index].Visiting? && LinkedTo(State(), index, |modules[index].dependencies|)
      requires BesideTo(world, modules, modules[index], |modules[index].dependencies|)
      modifies this`visits, this`order
      ensures Valid() && index < |old(visits)| && State() == Finished(old(State()), index)
    {
      LinkingAll(State(), index);
      FinishKeeps(State(), index);
      assert |visits| == |modules|;
      hide Good, Forest, FromWorld, Tabled, BesideTo;
      visits := visits[index := Complete];
      order := order + [index];
    }

    method Visit(index: nat) returns (ok: bool)
      requires Valid() && index < |modules|
      modifies this
      ensures ok ==> Valid() && Grows(old(State()), State()) && NoneLeft(old(State()), State()) && Done(State(), index)
      ensures ok ==> OnlyNeeded(old(State()), State(), index)
      ensures old(Fitting() && Asked() && Above(modules, visits, fit, index)) ==> ok && Fitting()
      decreases Unstarted(world, State()), 0
    {
      hide Good, Forest, FromWorld, Unstarted, Linked, Grows, NoneLeft, LinkedTo, Fitting, Asked, OnTop, Tabled, OnlyNeeded, BesideTo, AllBeside;
      NeededNone(State(), index);
      Sizes();
      if visits[index].Complete? {
        StillGrows(State());
        return true;
      }
      if visits[index].Visiting? { return false; }
      StartingShrinks(world, State(), index);
      StartedOnTop(State(), fit, index);
      hide Above;
      Start(index);
      ghost var started := State();
      ok := FollowAll(index);
      if !ok { return; }
      Sizes();
      VisitedNeeds(old(State()), started, State(), index);
      VisitedGrows(old(State()), started, State(), index);
      Finish(index);
    }

    /** Every dependency of a module, in the order in which it lists them. */
    method FollowAll(index: nat) returns (ok: bool)
      requires Valid() && index < |modules|
      modifies this
      ensures ok ==> Valid() && Grows(old(State()), State()) && NoneLeft(old(State()), State()) && OnlyNeeded(old(State()), State(), index)
      ensures ok ==> index < |modules| && LinkedTo(State(), index, |modules[index].dependencies|)
                     && BesideTo(world, modules, modules[index], |modules[index].dependencies|)
      ensures old(Fitting() && Asked() && OnTop(modules, visits, fit, index)) ==> ok && Fitting()
      decreases Unstarted(world, State()), 3
    {
      hide Good, Forest, FromWorld, Unstarted, Linked, Grows, NoneLeft, LinkedTo, Fitting, Asked, OnTop, Tabled, OnlyNeeded, BesideTo, AllBeside;
      Sizes();
      ghost var fits := Fitting() && Asked() && OnTop(modules, visits, fit, index);
      ghost var started := State();
      var directory := world.directory(modules[index].source);
      var dependencies := modules[index].dependencies;
      StillGrows(started);
      LinkedToNone(started, index);
      BesideNone(world, modules, modules[index]);
      NeededNone(started, index);
      for n := 0 to |dependencies|
        invariant Valid() && Grows(started, State()) && NoneLeft(started, State())
        invariant index < |modules| && modules[index] == started.modules[index] && LinkedTo(State(), index, n)
        invariant BesideTo(world, modules, modules[index], n) && OnlyNeeded(started, State(), index)
        invariant fits ==> Fitting() && Asked() && OnTop(modules, visits, fit, index)
      {
        Sizes();
        UnstartedShrinks(world, started, State());
        ghost var before := State();
        ok := Follow(index, n, directory);
        if !ok { return; }
        GrowsOn(started, before, State());
        NeededOn(started, before, State(), index);
      }
      return true;
    }

    lemma {:induction false} Sizes()
      requires Valid()
      ensures |visits| == |modules| == |roots| == |groupParents| && Indexed(State()) && FromWorld(world, modules)
    {}

    /** A root is its own root. */
    lemma {:induction false} RootsStay()
      requires Valid()
      ensures forall i :: 0 <= i < |roots| ==> roots[i] < |roots| && roots[roots[i]] == roots[i]
    {
      hide Good, FromWorld;
      forall i | 0 <= i < |roots| ensures roots[i] < |roots| && roots[roots[i]] == roots[i] {
        ForestAt(groupParents, roots, heights, i);
      }
    }

    lemma {:induction false} SelectedRequested(path: string) returns (i: nat)
      requires Valid() && Selected(path)
      ensures world.canonical(path).Some? && world.canonical(path).value in world.files
      ensures i < |modules| && Copy(modules[i], world.files[world.canonical(path).value])
    {
      i := paths[world.canonical(path).value];
      assert Known(world.canonical(path).value, paths[world.canonical(path).value]);
    }

    /** One dependency: resolve it, complete it, and link it. */
    method Follow(index: nat, n: nat, directory: string) returns (ok: bool)
      requires Valid() && index < |modules| && n < |modules[index].dependencies| && LinkedTo(State(), index, n)
      requires directory == world.directory(modules[index].source) && BesideTo(world, modules, modules[index], n)
      modifies this
      ensures ok ==> Valid() && Grows(old(State()), State()) && NoneLeft(old(State()), State())
      ensures ok ==> index < |modules| && modules[index] == old(modules)[index] && LinkedTo(State(), index, n + 1)
      ensures ok ==> BesideTo(world, modules, modules[index], n + 1) && OnlyNeeded(old(State()), State(), index)
      ensures old(Fitting() && Asked() && OnTop(modules, visits, fit, index)) ==>
                ok && Fitting() && Asked() && OnTop(modules, visits, fit, index)
      decreases Unstarted(world, State()), 2
    {
      hide Good, Forest, FromWorld, Unstarted, Linked, NoneLeft, LinkedTo, Fitting, OnTop, Above, Grows, Tabled, BesideTo, AllBeside;
      ghost var start := State();
      Sizes();
      var target := Completed(index, n, directory);
      if target.None? { return false; }
      Sizes();
      AttachFits(start, index, n, target.value);
      ok := Attach(index, n, target.value, start);
    }

    /** The module a dependency means, found and completed. */
    method Completed(index: nat, n: nat, directory: string) returns (target: Option<nat>)
      requires Valid() && index < |modules| && n < |modules[index].dependencies| && LinkedTo(State(), index, n)
      requires directory == world.directory(modules[index].source) && BesideTo(world, modules, modules[index], n)
      modifies this
      ensures target.Some? ==> Valid() && target.value < |modules| && |old(modules)| > index && Attachable(old(State()), State(), index, n, target.value)
      ensures target.Some? ==> index < |modules| && BesideTo(world, modules, modules[index], n + 1)
      ensures target.Some? ==> OnlyNeeded(old(State()), State(), index)
      ensures old(Fitting() && Asked() && OnTop(modules, visits, fit, index)) ==> target.Some? && Fitting()
      decreases Unstarted(world, State()), 1
    {
      hide Good, Forest, FromWorld, Unstarted, Linked, NoneLeft, LinkedTo, Fitting, OnTop, Above, Provided, Grows, OneMore, Tabled, BesideTo,
           AllBeside, Beside, OnlyNeeded;
      Sizes();
      ghost var start := State();
      DependencyProvided(index, n);
      target := Resolve(directory, modules[index].dependencies[n]);
      Sizes();
      UnstartedShrinks(world, start, State());
      if target.None? { return; }
      ghost var resolved := State();
      StillAsked(start, resolved);
      TargetAbove(start, resolved, index, n, target.value);
      var ok := Visit(target.value);
      if !ok { return None; }
      Sizes();
      Attaching(start, resolved, State(), index, n, target.value);
      FollowedBeside(start, resolved, start.modules[index], n);
      NeededThrough(start, resolved, State(), index, target.value);
    }

    lemma {:induction false} FollowedBeside(s: Shape, t: Shape, m: Module, n: nat)
      requires Grows(s, t) && Grows(t, State()) && n < |m.dependencies|
      requires BesideTo(world, s.modules, m, n) && Beside(world, t.modules, world.directory(m.source), m.dependencies[n])
      ensures BesideTo(world, modules, m, n + 1)
    {
      hide Beside;
      BesideNext(world, s.modules, t.modules, m, n);
      BesideStays(world, t.modules, modules, m, n + 1);
    }

    /** The target of a dependency was found and completed: it is linked to the dependent. */
    method Attach(index: nat, n: nat, target: nat, ghost start: Shape) returns (ok: bool)
      requires Valid() && Indexed(start) && index < |start.modules| && n < |start.modules[index].dependencies|
      requires Attachable(start, State(), index, n, target) && index < |modules| && target < |modules|
      modifies this`groupParents, this`roots, this`heights, this`edges
      ensures ok == (modules[index].runtime == modules[target].runtime)
      ensures ok ==> Valid() && State() == Linked(old(State()), index, target)
    {
      hide Good, Forest, FromWorld, Linked, NoneLeft, LinkedTo, Grows, Indexed, Tabled;
      if modules[index].runtime != modules[target].runtime { return false; }
      Unite(index, target);
      return true;
    }

    lemma {:induction false} AttachFits(start: Shape, index: nat, n: nat, target: nat)
      requires Indexed(start) && Indexed(State()) && index < |start.modules| && n < |start.modules[index].dependencies|
      requires Attachable(start, State(), index, n, target) && index < |modules| && target < |modules|
      ensures Fitting() && fit.asked <= start.names.Keys && OnTop(start.modules, start.visits, fit, index) ==>
                modules[index].runtime == modules[target].runtime && Asked() && OnTop(modules, visits, fit, index)
    {
      hide Linked, NoneLeft, LinkedTo, Fitting, OnTop, Grows, Indexed;
      StillAsked(start, State());
      StillOnTop(start, State(), fit, index);
      OneRuntimeHere(index, n, target);
    }

    lemma {:induction false} DependencyProvided(index: nat, n: nat)
      requires index < |modules| && n < |modules[index].dependencies|
      ensures Fitting() ==> Provided(world, fit, world.directory(modules[index].source), modules[index].dependencies[n])
    {
      if Fitting() { FittingSupports(index, n); }
    }

    lemma {:induction false} FittingSupports(index: nat, n: nat)
      requires Fitting() && index < |modules| && n < |modules[index].dependencies|
      ensures modules[index].source in fit.files && fit.files <= world.files.Keys
      ensures world.files[modules[index].source].name == modules[index].name && modules[index].name in fit.rank
      ensures Supported(world, fit, modules[index].source, modules[index].dependencies[n])
    {
      hide Supported, Agree;
      assert ReadFrom(world, fit, runtimeHashes, modules[index]);
    }

    lemma {:induction false} StillAsked(s: Shape, t: Shape)
      requires Grows(s, t) && t.names == names
      ensures fit.asked <= s.names.Keys ==> Asked()
    {}

    /** The module a dependency means is less deep than all that are on the way. */
    lemma {:induction false} TargetAbove(s: Shape, t: Shape, index: nat, n: nat, target: nat)
      requires Indexed(s) && Indexed(t) && Grows(s, t) && t == State() && index < |s.modules| && n < |s.modules[index].dependencies|
      requires target < |t.modules| && t.modules[target].name == s.modules[index].dependencies[n] && OneMore(s, t)
      ensures Fitting() && OnTop(s.modules, s.visits, fit, index) ==> Above(t.modules, t.visits, fit, target)
    {
      if Fitting() && OnTop(s.modules, s.visits, fit, index) {
        assert modules[index] == s.modules[index];
        FittingSupports(index, n);
        hide Fitting, Supported, Reads, Provided;
        LessDeep(s, t, fit, index, target);
      }
    }

    /** Two modules read from files that fit, one depending on the other, have one runtime. */
    lemma {:induction false} OneRuntimeHere(index: nat, n: nat, target: nat)
      requires index < |modules| && n < |modules[index].dependencies| && target < |modules|
      requires modules[target].name == modules[index].dependencies[n]
      ensures Fitting() ==> modules[index].runtime == modules[target].runtime
    {
      if Fitting() {
        FittingSupports(index, n);
        assert ReadFrom(world, fit, runtimeHashes, modules[index]) && ReadFrom(world, fit, runtimeHashes, modules[target]);
      }
    }

    /** Every module, in the classes of the forest; empty ones are erased. */
    method Groups() returns (groups: seq<seq<nat>>)
      requires Valid()
      modifies this`groupParents
      ensures Valid() && State() == old(State())
      ensures forall k :: 0 <= k < |order| ==> order[k] < |roots|
      ensures groups == Classes(order, roots, |modules|)
    {
      Sizes();
      OrderInRange();
      hide Good, FromWorld, Forest, Class, Indexed, Classes, Tabled;
      var all: seq<seq<nat>> := seq(|modules|, _ => []);
      NoClass(order, roots);
      hide AreAll;
      for n := 0 to |order|
        invariant Forest(groupParents, roots, heights) && |groupParents| == |modules| && |all| == |modules|
        invariant AreAll(all, order[..n], roots)
      {
        var root := Group(order[n]);
        ClassNext(all, order, roots, n);
        all := all[root := all[root] + [order[n]]];
      }
      assert order[..|order|] == order;
      groups := NonEmpty(all);
    }

    method NonEmpty(all: seq<seq<nat>>) returns (groups: seq<seq<nat>>)
      requires (forall k :: 0 <= k < |order| ==> order[k] < |roots|) && AreAll(all, order, roots)
      ensures groups == Classes(order, roots, |all|)
    {
      groups := [];
      for r := 0 to |all|
        invariant groups == Classes(order, roots, r)
      {
        if all[r] != [] { groups := groups + [all[r]]; }
      }
    }

    lemma {:induction false} OrderInRange()
      requires Valid()
      ensures forall k :: 0 <= k < |order| ==> order[k] < |roots|
    {
      forall k | 0 <= k < |order| ensures order[k] < |roots| {
        assert order[k] in order;
        assert Done(State(), order[k]);
      }
    }
  }

  lemma {:induction false} LessDeep(s: Shape, t: Shape, fit: Fit, index: nat, target: nat)
    requires |s.visits| == |s.modules| && |t.visits| == |t.modules| && Grows(s, t) && OneMore(s, t)
    requires index < |s.modules| && target < |t.modules| && OnTop(s.modules, s.visits, fit, index)
    requires t.modules[target].name in fit.rank && fit.rank[t.modules[target].name] < fit.rank[s.modules[index].name]
    ensures Above(t.modules, t.visits, fit, target)
  {}

  /** Starting the module that all on the way are deeper than puts it on top. */
  lemma {:induction false} StartedOnTop(s: Shape, fit: Fit, index: nat)
    requires index < |s.modules| && |s.visits| == |s.modules|
    ensures Above(s.modules, s.visits, fit, index) ==> OnTop(s.modules, Started(s, index).visits, fit, index)
  {}

  /** Visits in between leave the same modules on the way. */
  lemma {:induction false} StillOnTop(s: Shape, t: Shape, fit: Fit, index: nat)
    requires Indexed(s) && Indexed(t) && Grows(s, t) && NoneLeft(s, t) && index < |s.modules|
    ensures OnTop(s.modules, s.visits, fit, index) ==> OnTop(t.modules, t.visits, fit, index)
  {}

  /** The lists are the classes of the members in order, by root. */
  ghost predicate AreAll(all: seq<seq<nat>>, order: seq<nat>, roots: seq<nat>)
    requires forall k :: 0 <= k < |order| ==> order[k] < |roots|
  {
    forall r :: 0 <= r < |all| ==> all[r] == Class(order, roots, r)
  }

  lemma {:induction false} NoClass(order: seq<nat>, roots: seq<nat>)
    ensures AreAll(seq(|roots|, _ => []), order[..0], roots)
  {}

  lemma {:induction false} ClassNext(all: seq<seq<nat>>, order: seq<nat>, roots: seq<nat>, n: nat)
    requires n < |order| && (forall k :: 0 <= k < |order| ==> order[k] < |roots|)
    requires AreAll(all, order[..n], roots) && roots[order[n]] < |all|
    ensures var root := roots[order[n]]; AreAll(all[root := all[root] + [order[n]]], order[..n + 1], roots)
  {
    assert order[..n + 1][..n] == order[..n];
  }
}
