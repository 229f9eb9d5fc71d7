/** `Prepare_Link` of client/src/module_graph.cpp, and what a plan it returns promises. */
module ModulePlan {
  import opened Options
  import opened ModuleGraph
  import opened ModuleSet
  import opened ModuleOrder

  /** Modules, the groups to link, by their numbers, and the fingerprints of the runtimes. */
  datatype Plan = Plan(modules: seq<Module>, groups: seq<seq<nat>>, runtimes: seq<string>)

  ghost function Dependencies(modules: seq<Module>): Edges
  {
    set i, j | 0 <= i < |modules| && 0 <= j < |modules| && DependsOn(modules, i, j) :: (i, j)
  }

  ghost predicate Placed(groups: seq<seq<nat>>, i: nat)
  {
    exists g :: 0 <= g < |groups| && i in groups[g]
  }

  /** Every module is in one place. */
  ghost predicate EachOnce(plan: Plan)
  {
    && (forall g :: 0 <= g < |plan.groups| ==> forall p :: 0 <= p < |plan.groups[g]| ==> plan.groups[g][p] < |plan.modules|)
    && (forall i :: 0 <= i < |plan.modules| ==> Placed(plan.groups, i))
    && (forall g, h, p, q :: 0 <= g < |plan.groups| && 0 <= p < |plan.groups[g]| && 0 <= h < |plan.groups| && 0 <= q < |plan.groups[h]| ==>
          plan.groups[g][p] == plan.groups[h][q] ==> g == h && p == q)
  }

  /** In each group, every dependency comes before what depends on it. */
  ghost predicate DependenciesFirst(plan: Plan)
  {
    forall g :: 0 <= g < |plan.groups| ==> Ordered(plan.modules, plan.groups[g])
  }

  /** Two modules share a group exactly when dependencies connect them. */
  ghost predicate GroupsAreComponents(plan: Plan)
  {
    forall g, h, p, q :: 0 <= g < |plan.groups| && 0 <= p < |plan.groups[g]| && 0 <= h < |plan.groups| && 0 <= q < |plan.groups[h]| ==>
      (g == h <==> Connected(Dependencies(plan.modules), plan.groups[g][p], plan.groups[h][q]))
  }

  ghost predicate OneRuntime(plan: Plan)
    requires EachOnce(plan)
  {
    forall g, p, q :: 0 <= g < |plan.groups| && 0 <= p < |plan.groups[g]| && 0 <= q < |plan.groups[g]| ==>
      plan.modules[plan.groups[g][p]].runtime == plan.modules[plan.groups[g][q]].runtime
  }

  ghost predicate Linkable(plan: Plan)
  {
    EachOnce(plan) && DependenciesFirst(plan) && GroupsAreComponents(plan) && OneRuntime(plan)
  }

  /**
   The modules are what their files say, read while none was loaded. Names, folders and runtimes are not shared, and
   a module's runtime is the one its file was built against. What lies beside a module under the name of a dependency
   is that dependency.
   */
  ghost predicate FromFiles(world: World, plan: Plan)
  {
    && (forall i :: 0 <= i < |plan.modules| ==> FromFile(world, plan.modules[i]))
    && (forall i, j :: 0 <= i < j < |plan.modules| ==>
          plan.modules[i].name != plan.modules[j].name && plan.modules[i].folder != plan.modules[j].folder)
    && (forall i, j :: 0 <= i < j < |plan.runtimes| ==> plan.runtimes[i] != plan.runtimes[j])
    && RunsOn(world, plan.modules, plan.runtimes)
    && (forall i :: 0 <= i < |plan.modules| ==> BesideTo(world, plan.modules, plan.modules[i], |plan.modules[i].dependencies|))
  }

  lemma {:induction false} SelectedFromFiles(selected: Selection, groups: seq<seq<nat>>)
    requires selected.Valid() && Finale(selected.State())
    ensures FromFiles(selected.world, Plan(selected.modules, groups, selected.runtimes))
  {
    selected.Sizes();
    hide Good, Forest, Copy, BesideTo;
    forall i | 0 <= i < |selected.modules| ensures Done(selected.State(), i) {}
  }

  // ---------------------------------------------------------------- classes of an order

  ghost predicate InRange(order: seq<nat>, n: nat)
  {
    forall k :: 0 <= k < |order| ==> order[k] < n
  }

  ghost predicate Distinct(order: seq<nat>)
  {
    forall i, j :: 0 <= i < j < |order| ==> order[i] != order[j]
  }

  lemma {:induction false} ClassDistinct(order: seq<nat>, roots: seq<nat>, r: nat)
    requires InRange(order, |roots|) && Distinct(order)
    ensures Distinct(Class(order, roots, r))
  {
    if order != [] {
      var last := order[|order| - 1];
      ClassDistinct(order[..|order| - 1], roots, r);
      assert last !in order[..|order| - 1];
    }
  }

  /** A class keeps the order, and what a member depends on is in its class. */
  lemma {:induction false} ClassOrdered(modules: seq<Module>, order: seq<nat>, roots: seq<nat>, r: nat)
    requires InRange(order, |roots|) && Ordered(modules, order)
    requires forall i: nat, j: nat :: i < |roots| && DependsOn(modules, i, j) ==> j < |roots| && roots[i] == roots[j]
    ensures Ordered(modules, Class(order, roots, r))
  {
    if order != [] {
      var front, last := order[..|order| - 1], order[|order| - 1];
      assert order == front + [last];
      OrderedFront(modules, front, last);
      hide Ordered;
      ClassOrdered(modules, front, roots, r);
      if roots[last] == r { OrderedNext(modules, front, roots, r, last); }
    }
  }

  lemma {:induction false} OrderedFront(modules: seq<Module>, front: seq<nat>, last: nat)
    requires Ordered(modules, front + [last])
    ensures Ordered(modules, front)
  {
    forall p, j: nat | 0 <= p < |front| && DependsOn(modules, front[p], j) ensures j in front[..p] {
      assert (front + [last])[p] == front[p];
      assert (front + [last])[..p] == front[..p];
    }
  }

  lemma {:induction false} OrderedNext(modules: seq<Module>, front: seq<nat>, roots: seq<nat>, r: nat, last: nat)
    requires InRange(front, |roots|) && last < |roots| && Ordered(modules, front + [last]) && roots[last] == r
    requires Ordered(modules, Class(front, roots, r))
    requires forall j: nat :: DependsOn(modules, last, j) ==> j < |roots| && roots[j] == r
    ensures Ordered(modules, Class(front, roots, r) + [last])
  {
    var members := Class(front, roots, r);
    var c := members + [last];
    forall p, j: nat | 0 <= p < |c| && DependsOn(modules, c[p], j) ensures j in c[..p] {
      if p < |members| {
        assert c[..p] == members[..p];
      } else {
        assert (front + [last])[|front|] == last && (front + [last])[..|front|] == front;
        assert c[..p] == members;
      }
    }
  }

  /** What group `g` of the first `n` classes is. */
  ghost predicate IsClass(order: seq<nat>, roots: seq<nat>, group: seq<nat>, n: nat)
    requires InRange(order, |roots|)
  {
    && InRange(group, |roots|)
    && group != [] && roots[group[0]] < n && group == Class(order, roots, roots[group[0]])
  }

  lemma {:induction false} ClassIs(order: seq<nat>, roots: seq<nat>, r: nat)
    requires InRange(order, |roots|) && Class(order, roots, r) != []
    ensures var c := Class(order, roots, r); InRange(c, |roots|) && roots[c[0]] == r && IsClass(order, roots, c, r + 1)
  {
    var c := Class(order, roots, r);
    forall k | 0 <= k < |c| ensures c[k] < |roots| && roots[c[k]] == r { assert c[k] in c; }
  }

  /** Different classes, by rising roots below `n`. */
  ghost predicate AreClasses(order: seq<nat>, roots: seq<nat>, groups: seq<seq<nat>>, n: nat)
    requires InRange(order, |roots|)
  {
    && (forall g :: 0 <= g < |groups| ==> IsClass(order, roots, groups[g], n))
    && (forall g, h :: 0 <= g < h < |groups| ==> roots[groups[g][0]] < roots[groups[h][0]])
  }

  lemma {:induction false} AreClassesMore(order: seq<nat>, roots: seq<nat>, groups: seq<seq<nat>>, n: nat)
    requires InRange(order, |roots|) && AreClasses(order, roots, groups, n)
    ensures AreClasses(order, roots, groups, n + 1)
    ensures Class(order, roots, n) != [] ==> AreClasses(order, roots, groups + [Class(order, roots, n)], n + 1)
  {
    forall g | 0 <= g < |groups| ensures IsClass(order, roots, groups[g], n + 1) && roots[groups[g][0]] < n {
      assert IsClass(order, roots, groups[g], n);
    }
    if Class(order, roots, n) != [] { ClassIs(order, roots, n); }
  }

  lemma {:induction false} ClassesAre(order: seq<nat>, roots: seq<nat>, n: nat)
    requires InRange(order, |roots|)
    ensures AreClasses(order, roots, Classes(order, roots, n), n)
  {
    hide AreClasses;
    if n == 0 {
      NoClasses(order, roots);
    } else {
      ClassesAre(order, roots, n - 1);
      AreClassesMore(order, roots, Classes(order, roots, n - 1), n - 1);
    }
  }

  lemma {:induction false} NoClasses(order: seq<nat>, roots: seq<nat>)
    requires InRange(order, |roots|)
    ensures AreClasses(order, roots, [], 0)
  {}

  lemma {:induction false} ClassesPlace(order: seq<nat>, roots: seq<nat>, n: nat, i: nat)
    requires InRange(order, |roots|) && i in order && i < |roots| && roots[i] < n
    ensures Placed(Classes(order, roots, n), i)
  {
    var front, last := Classes(order, roots, n - 1), Class(order, roots, n - 1);
    var groups := Classes(order, roots, n);
    if roots[i] < n - 1 {
      ClassesPlace(order, roots, n - 1, i);
      var g :| 0 <= g < |front| && i in front[g];
      assert groups[g] == front[g];
    } else {
      assert i in last;
      assert groups[|front|] == last;
    }
  }

  // ---------------------------------------------------------------- the plan of a completed selection

  /** All modules are completed. */
  ghost predicate Finale(s: Shape)
  {
    Good(s) && forall i :: 0 <= i < |s.modules| ==> Done(s, i)
  }

  lemma {:induction false} FinaleFacts(s: Shape)
    requires Finale(s)
    ensures Indexed(s) && InRange(s.order, |s.roots|) && Distinct(s.order) && Ordered(s.modules, s.order)
    ensures forall i :: 0 <= i < |s.modules| ==> i in s.order
    ensures s.edges == Dependencies(s.modules) && RootsConnect(s.roots, s.edges)
    ensures forall i :: 0 <= i < |s.roots| ==> s.roots[i] < |s.roots|
    ensures forall i: nat, j: nat :: (i, j) in s.edges ==> i < |s.modules| && j < |s.modules| && s.modules[i].runtime == s.modules[j].runtime
  {
    forall k | 0 <= k < |s.order| ensures s.order[k] < |s.roots| {
      assert s.order[k] in s.order;
      assert Done(s, s.order[k]);
    }
    forall e: (nat, nat) ensures e in s.edges <==> e in Dependencies(s.modules) {
      var (i, j) := e;
      assert (i, j) in s.edges <==> e in s.edges;
      if DependsOn(s.modules, i, j) { assert Done(s, i); }
    }
    hide RootsConnect, Ordered;
  }

  lemma {:induction false} PlanPlaces(s: Shape, groups: seq<seq<nat>>, runtimes: seq<string>)
    requires Finale(s) && InRange(s.order, |s.roots|) && groups == Classes(s.order, s.roots, |s.modules|)
    ensures EachOnce(Plan(s.modules, groups, runtimes))
  {
    FinaleFacts(s);
    var n := |s.modules|;
    ClassesAre(s.order, s.roots, n);
    forall i | 0 <= i < n ensures Placed(groups, i) { ClassesPlace(s.order, s.roots, n, i); }
    hide Finale, Classes, Class, Indexed, RootsConnect, Placed, Ordered;
    forall g | 0 <= g < |groups| ensures IsClass(s.order, s.roots, groups[g], n) && Distinct(groups[g]) {
      ClassDistinct(s.order, s.roots, s.roots[groups[g][0]]);
    }
    forall g, h, p, q | 0 <= g < |groups| && 0 <= p < |groups[g]| && 0 <= h < |groups| && 0 <= q < |groups[h]|
                        && groups[g][p] == groups[h][q]
      ensures g == h && p == q
    {
      InClass(s.order, s.roots, groups, n, g, p);
      InClass(s.order, s.roots, groups, n, h, q);
    }
  }

  lemma {:induction false} InClass(order: seq<nat>, roots: seq<nat>, groups: seq<seq<nat>>, n: nat, g: nat, p: nat)
    requires InRange(order, |roots|) && AreClasses(order, roots, groups, n) && g < |groups| && p < |groups[g]|
    ensures groups[g][p] < |roots| && groups[g] != [] && groups[g][0] < |roots| && roots[groups[g][p]] == roots[groups[g][0]]
  {
    assert IsClass(order, roots, groups[g], n);
    assert groups[g][p] in groups[g];
  }

  lemma {:induction false} PlanOrdered(s: Shape, groups: seq<seq<nat>>, runtimes: seq<string>)
    requires Finale(s) && InRange(s.order, |s.roots|) && groups == Classes(s.order, s.roots, |s.modules|)
    ensures DependenciesFirst(Plan(s.modules, groups, runtimes))
  {
    FinaleFacts(s);
    ClassesAre(s.order, s.roots, |s.modules|);
    forall i: nat, j: nat | i < |s.roots| && DependsOn(s.modules, i, j) ensures j < |s.roots| && s.roots[i] == s.roots[j] {
      assert (i, j) in Dependencies(s.modules);
    }
    hide Finale, Classes, Class, Indexed, RootsConnect, Ordered, DependsOn;
    forall g | 0 <= g < |groups| ensures Ordered(s.modules, groups[g]) {
      assert IsClass(s.order, s.roots, groups[g], |s.modules|);
      ClassOrdered(s.modules, s.order, s.roots, s.roots[groups[g][0]]);
    }
  }

  lemma {:induction false} PlanComponents(s: Shape, groups: seq<seq<nat>>, runtimes: seq<string>)
    requires Finale(s) && InRange(s.order, |s.roots|) && groups == Classes(s.order, s.roots, |s.modules|)
    ensures GroupsAreComponents(Plan(s.modules, groups, runtimes))
  {
    FinaleFacts(s);
    ClassesAre(s.order, s.roots, |s.modules|);
    hide Finale, Classes, Class, Indexed, RootsConnect, Ordered, DependsOn, Connected, IsClass;
    forall g, h, p, q | 0 <= g < |groups| && 0 <= p < |groups[g]| && 0 <= h < |groups| && 0 <= q < |groups[h]|
      ensures g == h <==> Connected(Dependencies(s.modules), groups[g][p], groups[h][q])
    {
      InClass(s.order, s.roots, groups, |s.modules|, g, p);
      InClass(s.order, s.roots, groups, |s.modules|, h, q);
      RootsConnectBothWays(s.roots, s.edges, groups[g][p], groups[h][q]);
    }
  }

  lemma {:induction false} PlanOneRuntime(s: Shape, groups: seq<seq<nat>>, runtimes: seq<string>)
    requires Finale(s) && EachOnce(Plan(s.modules, groups, runtimes)) && GroupsAreComponents(Plan(s.modules, groups, runtimes))
    ensures OneRuntime(Plan(s.modules, groups, runtimes))
  {
    FinaleFacts(s);
    hide Finale, Indexed, RootsConnect, Ordered, DependsOn, Connected;
    var edges := Dependencies(s.modules);
    forall g, p, q | 0 <= g < |groups| && 0 <= p < |groups[g]| && 0 <= q < |groups[g]|
      ensures s.modules[groups[g][p]].runtime == s.modules[groups[g][q]].runtime
    {
      SameAlongPath(edges, (i: nat) => if i < |s.modules| then s.modules[i].runtime else i, groups[g][p], groups[g][q]);
    }
  }

  /** The classes of a completed selection are a plan that can be linked. */
  lemma {:induction false} PlanLinkable(s: Shape, groups: seq<seq<nat>>, runtimes: seq<string>)
    requires Finale(s) && InRange(s.order, |s.roots|) && groups == Classes(s.order, s.roots, |s.modules|)
    ensures Linkable(Plan(s.modules, groups, runtimes))
  {
    PlanPlaces(s, groups, runtimes);
    PlanOrdered(s, groups, runtimes);
    PlanComponents(s, groups, runtimes);
    PlanOneRuntime(s, groups, runtimes);
  }

  /** The groups come in the order in which a module of each, one without dependencies, was read. */
  ghost predicate ByLeaf(plan: Plan, leaves: seq<nat>)
  {
    && |leaves| == |plan.groups|
    && (forall g, h :: 0 <= g < h < |leaves| ==> leaves[g] < leaves[h])
    && (forall g :: 0 <= g < |leaves| ==>
          leaves[g] in plan.groups[g] && leaves[g] < |plan.modules| && plan.modules[leaves[g]].dependencies == [])
  }

  lemma {:induction false} PlanByLeaf(s: Shape, plan: Plan) returns (leaves: seq<nat>)
    requires Finale(s) && InRange(s.order, |s.roots|) && plan.modules == s.modules && plan.groups == Classes(s.order, s.roots, |s.modules|)
    requires forall i :: 0 <= i < |s.roots| ==> s.roots[i] < |s.roots| && s.roots[s.roots[i]] == s.roots[i]
    ensures ByLeaf(plan, leaves)
  {
    FinaleFacts(s);
    ClassesAre(s.order, s.roots, |s.modules|);
    assert Leafy(s);
    hide Finale, Classes, Class, Indexed, RootsConnect, Ordered, Distinct;
    forall g | 0 <= g < |plan.groups| ensures IsClass(s.order, s.roots, plan.groups[g], |s.modules|) {}
    leaves := seq(|plan.groups|, g requires 0 <= g < |plan.groups| => s.roots[plan.groups[g][0]]);
    forall g | 0 <= g < |leaves|
      ensures leaves[g] in plan.groups[g] && leaves[g] < |plan.modules| && plan.modules[leaves[g]].dependencies == []
    {
      var i := plan.groups[g][0];
      assert Done(s, i) && Leaf(s, s.roots[i]);
      assert s.roots[i] in s.order;
    }
  }

  // ---------------------------------------------------------------- the method

  /** The order of module names: the first difference decides, and a prefix comes first. */
  predicate Before(a: string, b: string)
  {
    if b == "" then false
    else if a == "" then true
    else a[0] < b[0] || (a[0] == b[0] && Before(a[1..], b[1..]))
  }

  /** `a` comes before `b` when they differ first in a smaller character of `a`, or `a` ends where `b` goes on. */
  lemma {:induction false} BeforeMeans(a: string, b: string)
    ensures Before(a, b) <==>
            exists k :: 0 <= k <= |a| && k < |b| && a[..k] == b[..k] && (k < |a| ==> a[k] < b[k])
  {
    if a != "" && b != "" {
      var x, y := a[1..], b[1..];
      BeforeMeans(x, y);
      if Before(a, b) && a[0] == b[0] {
        var k :| 0 <= k <= |x| && k < |y| && x[..k] == y[..k] && (k < |x| ==> x[k] < y[k]);
        assert a[..k + 1] == [a[0]] + x[..k] && b[..k + 1] == [b[0]] + y[..k];
      } else if Before(a, b) {
        assert a[..0] == b[..0];
      }
      if k :| 0 <= k <= |a| && k < |b| && a[..k] == b[..k] && (k < |a| ==> a[k] < b[k]) {
        if k > 0 {
          assert a[..k][0] == b[..k][0];
          assert x[..k - 1] == a[..k][1..] && y[..k - 1] == b[..k][1..];
        }
      }
    } else if b != "" {
      assert a[..0] == b[..0];
    }
  }

  lemma {:induction false} BeforeTotal(a: string, b: string)
    ensures Before(a, b) || a == b || Before(b, a)
    ensures !(Before(a, b) && Before(b, a))
  {
    if a != "" && b != "" && a[0] == b[0] {
      BeforeTotal(a[1..], b[1..]);
      assert a == [a[0]] + a[1..] && b == [b[0]] + b[1..];
    }
  }

  lemma {:induction false} BeforeOn(a: string, b: string, c: string)
    requires Before(a, b) && Before(b, c)
    ensures Before(a, c)
  {
    if a != "" && a[0] == b[0] && b[0] == c[0] { BeforeOn(a[1..], b[1..], c[1..]); }
  }

  ghost predicate Permutation(order: seq<nat>, n: nat)
  {
    InRange(order, n) && Distinct(order) && forall i :: 0 <= i < n ==> i in order
  }

  ghost predicate SortedByName(modules: seq<Module>, order: seq<nat>)
    requires InRange(order, |modules|)
  {
    forall a, b :: 0 <= a < b < |order| ==> !Before(modules[order[b]].name, modules[order[a]].name)
  }

  /** Modules in the order of their names. */
  method ByName(modules: seq<Module>) returns (order: seq<nat>)
    ensures Permutation(order, |modules|) && SortedByName(modules, order)
  {
    order := [];
    for n := 0 to |modules|
      invariant |order| == n && InRange(order, n) && Distinct(order) && (forall i :: 0 <= i < n ==> i in order)
      invariant SortedByName(modules, order)
    {
      var p := |order|;
      while p > 0 && Before(modules[n].name, modules[order[p - 1]].name)
        invariant 0 <= p <= |order|
        invariant forall q :: p <= q < |order| ==> Before(modules[n].name, modules[order[q]].name)
      {
        p := p - 1;
      }
      InsertSorted(modules, order, p, n);
      order := order[..p] + [n] + order[p..];
    }
  }

  lemma {:induction false} InsertSorted(modules: seq<Module>, order: seq<nat>, p: nat, n: nat)
    requires p <= |order| == n < |modules| && InRange(order, n) && Distinct(order) && SortedByName(modules, order)
    requires forall i :: 0 <= i < n ==> i in order
    requires forall q :: p <= q < |order| ==> Before(modules[n].name, modules[order[q]].name)
    requires p > 0 ==> !Before(modules[n].name, modules[order[p - 1]].name)
    ensures var now := order[..p] + [n] + order[p..];
            && InRange(now, n + 1) && Distinct(now) && SortedByName(modules, now) && forall i :: 0 <= i <= n ==> i in now
  {
    var now := order[..p] + [n] + order[p..];
    InsertKeepsAll(order, p, n);
    hide Before;
    forall a, b | 0 <= a < b < |now| ensures !Before(modules[now[b]].name, modules[now[a]].name) {
      if a == p {
        BeforeTotal(modules[n].name, modules[now[b]].name);
      } else if b == p {
        if a < p - 1 { NotBeforeOn(modules[order[a]].name, modules[order[p - 1]].name, modules[n].name); }
      }
    }
  }

  lemma {:induction false} InsertKeepsAll(order: seq<nat>, p: nat, n: nat)
    requires p <= |order| && InRange(order, n) && Distinct(order) && forall i :: 0 <= i < n ==> i in order
    ensures var now := order[..p] + [n] + order[p..];
            InRange(now, n + 1) && Distinct(now) && forall i :: 0 <= i <= n ==> i in now
  {
    var now := order[..p] + [n] + order[p..];
    assert now[p] == n;
    forall i | 0 <= i < n ensures i in now {
      assert i in order;
      assert order == order[..p] + order[p..];
    }
  }

  lemma {:induction false} NotBeforeOn(a: string, b: string, c: string)
    requires !Before(b, a) && !Before(c, b)
    ensures !Before(c, a)
  {
    if Before(c, a) {
      BeforeTotal(a, b);
      BeforeTotal(b, c);
      if b != c && a != b { BeforeOn(a, b, c); }
      BeforeTotal(a, c);
    }
  }

  /** A copy of the file that a requested path leads to is among these. */
  ghost predicate Requested(world: World, modules: seq<Module>, path: string)
  {
    && world.canonical(path).Some? && world.canonical(path).value in world.files
    && exists i :: 0 <= i < |modules| && Copy(modules[i], world.files[world.canonical(path).value])
  }

  method ReadAll(selected: Selection, paths: seq<string>) returns (ok: bool)
    requires selected.Valid() && selected.modules == []
    modifies selected
    ensures ok ==> selected.Valid() && AllRequested(selected.world, selected.modules, paths)
    ensures ok ==> AllHeads(selected.world, selected.modules, paths) && selected.order == old(selected.order)
    ensures old(Idle(selected.State())) ==> Idle(selected.State())
    ensures old(selected.Fitting()) && AllRead(selected.world, selected.fit, paths) ==> ok && selected.Fitting()
  {
    hide Good, Forest, FromWorld, Grows, Requested, FitTogether, Head, AllBeside;
    ghost var fits := selected.Fitting() && AllRead(selected.world, selected.fit, paths);
    for n := 0 to |paths|
      invariant selected.Valid() && AllRequested(selected.world, selected.modules, paths[..n])
      invariant AllHeads(selected.world, selected.modules, paths[..n]) && selected.order == old(selected.order)
      invariant old(Idle(selected.State())) ==> Idle(selected.State())
      invariant fits ==> selected.Fitting()
    {
      ghost var before := selected.State();
      assert fits ==> Reads(selected.world, selected.fit, paths[n]);
      var index := selected.Read(paths[n]);
      StillIdle(before, selected.State());
      if index.None? { return false; }
      RequestedStay(selected.world, before, selected.State(), paths[..n]);
      ghost var i := selected.SelectedRequested(paths[n]);
      OneMoreRequested(selected.world, selected.modules, paths, n, i);
      OneMoreHead(selected.world, before, selected.State(), paths, n, index.value);
    }
    assert paths[..|paths|] == paths;
    return true;
  }

  ghost predicate AllRead(world: World, fit: Fit, paths: seq<string>)
  {
    forall p <- paths :: Reads(world, fit, p)
  }

  /** The module is a copy of a file that was asked for. */
  ghost predicate Head(world: World, m: Module, paths: seq<string>)
  {
    exists p <- paths :: world.canonical(p).Some? && world.canonical(p).value in world.files && Copy(m, world.files[world.canonical(p).value])
  }

  ghost predicate AllHeads(world: World, modules: seq<Module>, paths: seq<string>)
  {
    forall i :: 0 <= i < |modules| ==> Head(world, modules[i], paths)
  }

  lemma {:induction false} OneMoreHead(world: World, s: Shape, t: Shape, paths: seq<string>, n: nat, index: nat)
    requires n < |paths| && AllHeads(world, s.modules, paths[..n]) && OneMore(s, t)
    requires |t.modules| > |s.modules| ==> index == |s.modules|
    requires world.canonical(paths[n]).Some? && KnownIn(world, t.modules, world.canonical(paths[n]).value, index)
    ensures AllHeads(world, t.modules, paths[..n + 1])
  {
    assert paths[..n + 1] == paths[..n] + [paths[n]];
    forall i | 0 <= i < |t.modules| ensures Head(world, t.modules[i], paths[..n + 1]) {
      if i < |s.modules| {
        assert t.modules[i] == s.modules[i];
        var p :| p in paths[..n] && world.canonical(p).Some? && world.canonical(p).value in world.files
                 && Copy(s.modules[i], world.files[world.canonical(p).value]);
        assert p in paths[..n + 1];
      } else {
        assert paths[n] in paths[..n + 1];
      }
    }
  }

  ghost predicate AllRequested(world: World, modules: seq<Module>, paths: seq<string>)
  {
    forall p <- paths :: Requested(world, modules, p)
  }

  lemma {:induction false} OneMoreRequested(world: World, modules: seq<Module>, paths: seq<string>, n: nat, i: nat)
    requires n < |paths| && AllRequested(world, modules, paths[..n]) && i < |modules|
    requires world.canonical(paths[n]).Some? && world.canonical(paths[n]).value in world.files
    requires Copy(modules[i], world.files[world.canonical(paths[n]).value])
    ensures AllRequested(world, modules, paths[..n + 1])
  {
    assert paths[..n + 1] == paths[..n] + [paths[n]];
    assert Requested(world, modules, paths[n]);
  }

  lemma {:induction false} RequestedStay(world: World, s: Shape, t: Shape, paths: seq<string>)
    requires Grows(s, t) && AllRequested(world, s.modules, paths)
    ensures AllRequested(world, t.modules, paths)
  {
    forall p <- paths ensures Requested(world, t.modules, p) {
      assert Requested(world, s.modules, p);
      var file := world.files[world.canonical(p).value];
      var i :| 0 <= i < |s.modules| && Copy(s.modules[i], file);
      assert Copy(t.modules[i], file);
    }
  }

  method VisitAll(selected: Selection, roots: seq<nat>) returns (ok: bool, ghost firsts: seq<nat>)
    requires selected.Valid() && Permutation(roots, |selected.modules|) && selected.order == []
    modifies selected
    ensures ok ==> selected.Valid() && Finale(selected.State()) && Grows(old(selected.State()), selected.State())
    ensures ok ==> Tracked(selected.State(), roots, |roots|, firsts)
    ensures old(selected.Fitting() && selected.Asked() && Idle(selected.State())) ==> ok
  {
    ghost var start := selected.State();
    ghost var fits := selected.Fitting() && selected.Asked() && Idle(start);
    selected.Sizes();
    hide Good, Forest, FromWorld, Grows, NoneLeft, FitTogether, OnlyNeeded, Tracked, AllBeside;
    TrackedNone(start, roots);
    StillGrows(start);
    firsts := [];
    for n := 0 to |roots|
      invariant selected.Valid() && Grows(start, selected.State()) && NoneLeft(start, selected.State())
      invariant |start.modules| <= |selected.modules| && AllDone(selected.State(), roots[..n])
      invariant Tracked(selected.State(), roots, n, firsts)
      invariant fits ==> selected.Fitting()
    {
      ghost var before := selected.State();
      selected.Sizes();
      selected.StillAsked(start, before);
      IdleAbove(start, before, selected.world, selected.fit, selected.runtimeHashes, roots[n]);
      ok := selected.Visit(roots[n]);
      if !ok { return; }
      GrowsOn(start, before, selected.State());
      DoneStay(before, selected.State(), roots, n);
      firsts := SelectedTracked(selected, before, roots, n, firsts);
    }
    assert roots[..|roots|] == roots;
    selected.Sizes();
    assert Good(selected.State());
    EverythingDone(start, selected.State(), roots);
    ok := true;
  }

  lemma {:induction false} SelectedTracked(selected: Selection, s: Shape, roots: seq<nat>, n: nat, firsts: seq<nat>) returns (more: seq<nat>)
    requires selected.Valid() && Good(s) && Grows(s, selected.State()) && Tracked(s, roots, n, firsts) && n < |roots|
    requires OnlyNeeded(s, selected.State(), roots[n]) && Done(selected.State(), roots[n])
    ensures Tracked(selected.State(), roots, n + 1, more)
  {
    hide Good, Grows, Tracked, OnlyNeeded, Done;
    more := TrackedNext(s, selected.State(), roots, n, firsts);
  }

  /** Nothing is on the way. */
  ghost predicate Idle(s: Shape)
  {
    forall i :: 0 <= i < |s.visits| ==> !s.visits[i].Visiting?
  }

  lemma {:induction false} StillIdle(s: Shape, t: Shape)
    requires OneMore(s, t)
    ensures Idle(s) ==> Idle(t)
  {}

  lemma {:induction false} IdleAbove(s: Shape, t: Shape, world: World, fit: Fit, hashes: map<string, nat>, index: nat)
    requires Indexed(s) && Indexed(t) && Grows(s, t) && NoneLeft(s, t) && index < |t.modules|
    ensures FitTogether(world, fit) && ReadFrom(world, fit, hashes, t.modules[index]) && Idle(s) ==>
              Above(t.modules, t.visits, fit, index)
  {}

  ghost predicate AllDone(s: Shape, roots: seq<nat>)
  {
    forall i <- roots :: Done(s, i)
  }

  lemma {:induction false} DoneStay(s: Shape, t: Shape, roots: seq<nat>, n: nat)
    requires n < |roots| && Grows(s, t) && AllDone(s, roots[..n]) && Done(t, roots[n])
    ensures AllDone(t, roots[..n + 1]) && |s.modules| <= |t.modules|
  {
    assert roots[..n + 1] == roots[..n] + [roots[n]];
    forall i <- roots[..n] ensures Done(t, i) { assert Done(s, i); }
  }

  lemma {:induction false} EverythingDone(s: Shape, t: Shape, roots: seq<nat>)
    requires Permutation(roots, |s.modules|) && |s.visits| == |s.modules| && |t.visits| == |t.modules|
    requires Grows(s, t) && NoneLeft(s, t) && AllDone(t, roots) && Good(t)
    ensures Finale(t)
  {
    hide Good, Distinct;
    forall i | 0 <= i < |t.modules| ensures Done(t, i) {}
  }

  /**
   The requested files and those their dependencies lead to fit together: they exist, copies of a module are
   alike, folders differ, no dependency leads back, and a module's runtime is that of its dependencies. Each
   dependency has a file beside its dependent, or else was requested by name.
   */
  ghost predicate Plannable(world: World, paths: seq<string>, fit: Fit)
  {
    && FitTogether(world, fit) && AllRead(world, fit, paths)
    && forall d <- fit.asked :: exists p <- paths :: Reads(world, fit, p) && world.files[world.canonical(p).value].name == d
  }

  lemma {:induction false} RequestedAsked(world: World, paths: seq<string>, fit: Fit, s: Shape)
    requires Plannable(world, paths, fit) && AllRequested(world, s.modules, paths) && Indexed(s)
    ensures fit.asked <= s.names.Keys
  {
    hide FitTogether;
    forall d <- fit.asked ensures d in s.names {
      var p :| p in paths && Reads(world, fit, p) && world.files[world.canonical(p).value].name == d;
      assert Requested(world, s.modules, p);
    }
  }

  /** Some requested module needs `x`, and no module requested under an earlier name needs `y`. */
  ghost predicate NeededFirst(world: World, modules: seq<Module>, paths: seq<string>, x: nat, y: nat)
  {
    exists r :: 0 <= r < |modules| && Head(world, modules[r], paths) && Needs(modules, r, x)
                && forall q :: 0 <= q < |modules| && Head(world, modules[q], paths) && Needs(modules, q, y) ==>
                     !Before(modules[q].name, modules[r].name)
  }

  ghost predicate Needed(world: World, modules: seq<Module>, paths: seq<string>, i: nat)
  {
    exists r :: 0 <= r < |modules| && Head(world, modules[r], paths) && Needs(modules, r, i)
  }

  /** All modules are needed, and in each group those that are needed first come first. */
  ghost predicate InNameOrder(world: World, plan: Plan, paths: seq<string>)
  {
    && (forall i :: 0 <= i < |plan.modules| ==> Needed(world, plan.modules, paths, i))
    && (forall g :: 0 <= g < |plan.groups| ==> forall p, q :: 0 <= p < q < |plan.groups[g]| ==>
          NeededFirst(world, plan.modules, paths, plan.groups[g][p], plan.groups[g][q]))
  }

  /** The roots are the requested modules, in the order of their names. */
  ghost predicate Heads(world: World, modules: seq<Module>, paths: seq<string>, roots: seq<nat>)
  {
    && InRange(roots, |modules|) && SortedByName(modules, roots)
    && forall i :: 0 <= i < |modules| ==> (i in roots <==> Head(world, modules[i], paths))
  }

  lemma {:induction false} RootsAreHeads(world: World, s: Shape, t: Shape, paths: seq<string>, roots: seq<nat>)
    requires Indexed(s) && Indexed(t) && Grows(s, t) && AllRequested(world, s.modules, paths) && AllHeads(world, s.modules, paths)
    requires Permutation(roots, |s.modules|) && SortedByName(s.modules, roots)
    ensures Heads(world, t.modules, paths, roots)
  {
    hide Before, Head;
    forall i | 0 <= i < |t.modules| ensures i in roots <==> Head(world, t.modules[i], paths) {
      if i < |s.modules| {
        assert Head(world, s.modules[i], paths);
      } else if Head(world, t.modules[i], paths) {
        HeadIsOld(world, s, t, paths, i);
      }
    }
  }

  lemma {:induction false} HeadIsOld(world: World, s: Shape, t: Shape, paths: seq<string>, i: nat)
    requires Indexed(s) && Indexed(t) && Grows(s, t) && AllRequested(world, s.modules, paths)
    requires i < |t.modules| && Head(world, t.modules[i], paths)
    ensures i < |s.modules|
  {
    var p :| p in paths && world.canonical(p).Some? && world.canonical(p).value in world.files
             && Copy(t.modules[i], world.files[world.canonical(p).value]);
    assert Requested(world, s.modules, p);
    var j :| 0 <= j < |s.modules| && Copy(s.modules[j], world.files[world.canonical(p).value]);
    assert s.names[s.modules[j].name] == j && t.names[t.modules[i].name] == i;
  }

  lemma {:induction false} TrackedFirst(world: World, s: Shape, paths: seq<string>, roots: seq<nat>, firsts: seq<nat>, a: nat, b: nat)
    requires Tracked(s, roots, |roots|, firsts) && Heads(world, s.modules, paths, roots) && a < b < |s.order|
    ensures NeededFirst(world, s.modules, paths, s.order[a], s.order[b])
  {
    hide Head, Needs, Before;
    var r := roots[firsts[a]];
    assert r in roots;
    forall q | 0 <= q < |s.modules| && Head(world, s.modules[q], paths) && Needs(s.modules, q, s.order[b])
      ensures !Before(s.modules[q].name, s.modules[r].name)
    {
      var k :| 0 <= k < |roots| && roots[k] == q;
      if k == firsts[a] { BeforeTotal(s.modules[q].name, s.modules[q].name); }
    }
  }

  /** The classes of a completed selection come in the order of the names that were asked for. */
  lemma {:induction false} PlanInNameOrder(world: World, s: Shape, plan: Plan, paths: seq<string>, roots: seq<nat>, firsts: seq<nat>)
    requires Finale(s) && InRange(s.order, |s.roots|) && plan.modules == s.modules && plan.groups == Classes(s.order, s.roots, |s.modules|)
    requires Tracked(s, roots, |roots|, firsts) && Heads(world, s.modules, paths, roots)
    ensures InNameOrder(world, plan, paths)
  {
    FinaleFacts(s);
    ClassesAre(s.order, s.roots, |s.modules|);
    hide Finale, Classes, Class, Indexed, RootsConnect, Ordered, Head, Needs, NeededFirst, Before, Distinct;
    forall i | 0 <= i < |plan.modules| ensures Needed(world, plan.modules, paths, i) {
      assert i in s.order;
      var p :| 0 <= p < |s.order| && s.order[p] == i;
      assert roots[firsts[p]] in roots;
    }
    hide Tracked;
    forall g, p, q | 0 <= g < |plan.groups| && 0 <= p < q < |plan.groups[g]|
      ensures NeededFirst(world, plan.modules, paths, plan.groups[g][p], plan.groups[g][q])
    {
      assert IsClass(s.order, s.roots, plan.groups[g], |s.modules|);
      var a, b := ClassPlaces(s.order, s.roots, s.roots[plan.groups[g][0]], p, q);
      TrackedFirst(world, s, paths, roots, firsts, a, b);
    }
  }

  /**
   `Prepare_Link`: a plan it returns has every module once, as its file says it is, and a copy of every requested
   file, dependencies before dependents, the components of the dependency graph as groups, and one runtime per group.
   Nothing else is in it, and what is needed under an earlier name comes first. When the files fit together, it returns one.
   */
  method PrepareLink(world: World, paths: seq<string>) returns (plan: Option<Plan>)
    ensures plan.Some? ==> Linkable(plan.value) && FromFiles(world, plan.value) && AllRequested(world, plan.value.modules, paths)
    ensures plan.Some? ==> InNameOrder(world, plan.value, paths) && exists leaves :: ByLeaf(plan.value, leaves)
    ensures (exists fit :: Plannable(world, paths, fit)) ==> plan.Some?
  {
    ghost var fit := Fit({}, {}, map[]);
    if exists fits :: Plannable(world, paths, fits) { fit :| Plannable(world, paths, fit); }
    var selected := new Selection(world, fit);
    assert Idle(selected.State()) by { selected.Sizes(); }
    hide FitTogether, Good, Forest, FromWorld;
    var ok := ReadAll(selected, paths);
    if !ok { return None; }
    selected.Sizes();
    if Plannable(world, paths, fit) { RequestedAsked(world, paths, fit, selected.State()); }
    hide Finale, AllRequested, Linkable, Grows, AllHeads, Heads, Tracked, FromFiles, InNameOrder, AllBeside;
    ghost var read := selected.State();
    var roots := ByName(selected.modules);
    ghost var firsts;
    ok, firsts := VisitAll(selected, roots);
    if !ok { return None; }
    selected.Sizes();
    RootsAreHeads(world, read, selected.State(), paths, roots);
    RequestedStay(world, read, selected.State(), paths);
    var groups := selected.Groups();
    PlanLinkable(selected.State(), groups, selected.runtimes);
    SelectedFromFiles(selected, groups);
    plan := Some(Plan(selected.modules, groups, selected.runtimes));
    PlanInNameOrder(world, selected.State(), plan.value, paths, roots, firsts);
    selected.RootsStay();
    ghost var leaves := PlanByLeaf(selected.State(), plan.value);
  }
}
