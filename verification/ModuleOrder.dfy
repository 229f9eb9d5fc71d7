/** In what order the visits of client/src/module_graph.cpp complete the modules. */
module ModuleOrder {
  import opened Options
  import opened ModuleGraph
  import opened ModuleSet

  /** What a completed module needs was known and completed before it. */
  lemma {:induction false} NeedsBefore(s: Shape, t: Shape, i: nat, j: nat)
    requires Good(s) && Indexed(t) && Grows(s, t) && Done(s, i) && Needs(t.modules, i, j)
    ensures Done(s, j) && Needs(s.modules, i, j)
  {
    var path: seq<nat> :| Chain(t.modules, path, i, j);
    ChainBefore(s, t, path, i, j, |path| - 1);
    assert path[..|path|] == path;
  }

  lemma {:induction false} ChainBefore(s: Shape, t: Shape, path: seq<nat>, i: nat, j: nat, n: nat)
    requires Good(s) && Indexed(t) && Grows(s, t) && Done(s, i) && Chain(t.modules, path, i, j) && n < |path|
    ensures Done(s, path[n]) && Chain(s.modules, path[..n + 1], i, path[n])
  {
    hide RootsConnect;
    if n > 0 {
      ChainBefore(s, t, path, i, j, n - 1);
      assert DependsOn(t.modules, path[n - 1], path[n]);
      DependsBefore(s, t, path[n - 1], path[n]);
      assert path[..n + 1] == path[..n] + [path[n]];
    }
  }

  lemma {:induction false} DependsBefore(s: Shape, t: Shape, i: nat, j: nat)
    requires Good(s) && Indexed(t) && Grows(s, t) && Done(s, i) && DependsOn(t.modules, i, j)
    ensures DependsOn(s.modules, i, j) && Done(s, j)
  {
    hide RootsConnect;
    assert i in s.order && Satisfied(s, i);
    assert t.names[t.modules[j].name] == j;
    var p :| 0 <= p < |s.order| && s.order[p] == i;
    assert j in s.order[..p];
    assert j in s.order;
  }

  /**
   `firsts` says for each completed module which of the first `n` roots needed it first: it rises along the order,
   and that root and no earlier one needs the module.
   */
  ghost predicate Tracked(s: Shape, roots: seq<nat>, n: nat, firsts: seq<nat>)
  {
    && n <= |roots| && |firsts| == |s.order|
    && (forall p, q :: 0 <= p < q < |firsts| ==> firsts[p] <= firsts[q])
    && (forall p :: 0 <= p < |firsts| ==> firsts[p] < n && Needs(s.modules, roots[firsts[p]], s.order[p]))
    && (forall k, q :: 0 <= k < n && 0 <= q < |s.order| && Needs(s.modules, roots[k], s.order[q]) ==> firsts[q] <= k)
    && (forall k :: 0 <= k < n ==> Done(s, roots[k]))
  }

  lemma {:induction false} TrackedNone(s: Shape, roots: seq<nat>)
    requires s.order == []
    ensures Tracked(s, roots, 0, [])
  {}

  lemma {:induction false} TrackedNext(s: Shape, t: Shape, roots: seq<nat>, n: nat, firsts: seq<nat>) returns (more: seq<nat>)
    requires Good(s) && Good(t) && Grows(s, t) && Tracked(s, roots, n, firsts) && n < |roots|
    requires OnlyNeeded(s, t, roots[n]) && Done(t, roots[n])
    ensures Tracked(t, roots, n + 1, more)
  {
    hide Good, Needs, Grows;
    GrowsOrder(s, t);
    more := firsts + seq(|t.order| - |s.order|, _ => n);
    forall p | 0 <= p < |more| ensures more[p] <= n && Needs(t.modules, roots[more[p]], t.order[p]) {
      if p < |s.order| {
        assert t.order[p] == s.order[p];
        NeedsMore(s.modules, t.modules, roots[firsts[p]], s.order[p]);
      }
    }
    forall k, q | 0 <= k < n && 0 <= q < |t.order| && Needs(t.modules, roots[k], t.order[q]) ensures more[q] <= k {
      NeededEarly(s, t, roots[k], q);
    }
  }

  lemma {:induction false} GrowsOrder(s: Shape, t: Shape)
    requires Grows(s, t)
    ensures s.modules <= t.modules && s.order <= t.order && forall k :: Done(s, k) ==> Done(t, k)
  {}

  /** What a completed module needs is among what was completed. */
  lemma {:induction false} NeededEarly(s: Shape, t: Shape, i: nat, q: nat)
    requires Good(s) && Good(t) && Grows(s, t) && Done(s, i) && q < |t.order| && Needs(t.modules, i, t.order[q])
    ensures q < |s.order| && Needs(s.modules, i, t.order[q])
  {
    NeedsBefore(s, t, i, t.order[q]);
    hide Needs, RootsConnect;
    assert t.order[q] in s.order;
    var p :| 0 <= p < |s.order| && s.order[p] == t.order[q];
    assert t.order[p] == t.order[q];
  }

  /** Elements of a class stand in the order as they do in the class. */
  lemma {:induction false} ClassPlaces(order: seq<nat>, roots: seq<nat>, r: nat, p: nat, q: nat) returns (a: nat, b: nat)
    requires forall k :: 0 <= k < |order| ==> order[k] < |roots|
    requires p < q < |Class(order, roots, r)|
    ensures a < b < |order| && order[a] == Class(order, roots, r)[p] && order[b] == Class(order, roots, r)[q]
  {
    var front := Class(order[..|order| - 1], roots, r);
    if q < |front| {
      a, b := ClassPlaces(order[..|order| - 1], roots, r, p, q);
    } else {
      b := |order| - 1;
      assert front[p] in front;
      a :| 0 <= a < |order| - 1 && order[..|order| - 1][a] == front[p];
    }
  }
}
