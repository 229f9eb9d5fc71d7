/** Which saved preferences keep the texture sources in order: those that save no owner and valid id twice. */
module TexturePreferences {
  import opened Machine
  import opened Options
  import opened Textures

  /** The manager after its preferences were read, before the first source is created. */
  function Loaded(saved: seq<Preference>): State { State([], saved, 0, 0, false, false) }

  /** Whatever is done after loading, the sources stand in the order of their preferences. */
  ghost predicate KeepsOrder(saved: seq<Preference>)
  {
    forall ops: seq<Operation> :: Ordered(Run(Loaded(saved), ops).sources, Run(Loaded(saved), ops).preferences)
  }

  // ---------------------------------------------------------------- names that nobody saved

  function Letters(n: nat): (id: string)
    ensures |id| == n && (n > 0 ==> ValidText(id))
  {
    seq(n, i => 'a')
  }

  function Longest(saved: seq<Preference>): (n: nat)
    ensures forall p <- saved :: |p.id| <= n
  {
    if saved == [] then 0
    else
      var rest := Longest(saved[1..]);
      assert forall p <- saved :: p == saved[0] || p in saved[1..];
      if rest < |saved[0].id| then |saved[0].id| else rest
  }

  lemma {:induction false} UnsavedRank(preferences: seq<Preference>, owner: string, id: string)
    requires forall p <- preferences :: p.id != id
    ensures RankIn(preferences, owner, id) == |preferences|
  {
    forall k | 0 <= k < |preferences| ensures preferences[k].id != id { assert preferences[k] in preferences; }
  }

  // ---------------------------------------------------------------- a run that loses the order

  function Add(owner: string, id: string): Operation { DoCreate(None, owner, id, "name", "path", false) }

  /** Register the source that is saved twice and two new ones, and move the first behind the others. */
  function Upset(saved: seq<Preference>, owner: string, id: string): seq<Operation>
  {
    [Add(owner, id), Add("", Letters(Longest(saved) + 1)), Add("", Letters(Longest(saved) + 2)), DoMove(1, 2)]
  }

  /** A new source whose rank is not below any other's goes to the end. */
  lemma {:induction false} AddsLast(s: State, owner: string, id: string)
    requires ValidText(id) && s.nextHandle < MAX_32 && !Registered(s.sources, owner, id)
    requires forall i :: 0 <= i < |s.sources| ==> Rank(Preferred(s, owner, id), s.sources[i]) <= RankIn(s.preferences, owner, id)
    ensures var t := Do(s, Add(owner, id));
            && t.preferences == Preferred(s, owner, id) && t.nextHandle == s.nextHandle + 1
            && |t.sources| == |s.sources| + 1 && t.sources[..|s.sources|] == s.sources
            && t.sources[|s.sources|].owner == owner && t.sources[|s.sources|].id == id
            && t.sources[|s.sources|].handle == s.nextHandle + 1
  {
    var (source, preferences) := Added(s, None, owner, id, "path", false);
    var place := Place(s.sources, preferences, Rank(preferences, source));
    hide RankIn, Place, Registered;
    assert preferences == Preferred(s, owner, id);
    assert place == |s.sources|;
    assert ValidText("name") && ValidText("path");
    assert s.sources[..place] + [source] + s.sources[place..] == s.sources + [source];
  }

  /** The preferences after a source is registered. */
  function Preferred(s: State, owner: string, id: string): seq<Preference>
  {
    if RankIn(s.preferences, owner, id) == |s.preferences| then s.preferences + [Preference(owner, id, false)] else s.preferences
  }

  /** The source that is saved twice, alone. */
  ghost predicate OneAdded(s: State, saved: seq<Preference>, owner: string, id: string)
  {
    && s.preferences == saved && s.nextHandle == 1 && |s.sources| == 1
    && s.sources[0].owner == owner && s.sources[0].id == id && s.sources[0].handle == 1
  }

  lemma {:induction false} AddsFirst(saved: seq<Preference>, owner: string, id: string)
    requires RankIn(saved, owner, id) < |saved| && ValidText(id)
    ensures OneAdded(Do(Loaded(saved), Add(owner, id)), saved, owner, id)
  {
    AddsLast(Loaded(saved), owner, id);
    hide Do, RankIn;
  }

  ghost predicate TwoAdded(s: State, saved: seq<Preference>, owner: string, id: string, x: string)
  {
    && s.preferences == saved + [Preference("", x, false)] && s.nextHandle == 2 && |s.sources| == 2
    && s.sources[0].owner == owner && s.sources[0].id == id && s.sources[0].handle == 1
    && s.sources[1].owner == "" && s.sources[1].id == x && s.sources[1].handle == 2
  }

  lemma {:induction false} AddsSecond(s: State, saved: seq<Preference>, owner: string, id: string, x: string)
    requires OneAdded(s, saved, owner, id) && RankIn(saved, owner, id) < |saved|
    requires ValidText(x) && x != id && forall p <- saved :: p.id != x
    ensures TwoAdded(Do(s, Add("", x)), saved, owner, id, x)
  {
    UnsavedRank(saved, "", x);
    SavedStill(saved, saved + [Preference("", x, false)], s.sources[0], RankIn(saved, owner, id));
    hide RankIn;
    AddsLast(s, "", x);
    hide Do;
  }

  ghost predicate ThreeAdded(s: State, saved: seq<Preference>, owner: string, id: string, x: string, y: string)
  {
    && s.preferences == saved + [Preference("", x, false)] + [Preference("", y, false)] && |s.sources| == 3
    && s.sources[0].owner == owner && s.sources[0].id == id && s.sources[0].handle == 1
    && s.sources[1].owner == "" && s.sources[1].id == x
    && s.sources[2].owner == "" && s.sources[2].id == y
  }

  lemma {:induction false} AddsThird(s: State, saved: seq<Preference>, owner: string, id: string, x: string, y: string)
    requires TwoAdded(s, saved, owner, id, x) && RankIn(saved, owner, id) < |saved|
    requires ValidText(y) && y != id && y != x && forall p <- saved :: p.id != y
    ensures ThreeAdded(Do(s, Add("", y)), saved, owner, id, x, y)
  {
    var more := s.preferences;
    var all := more + [Preference("", y, false)];
    forall p <- more ensures p.id != y {}
    UnsavedRank(more, "", y);
    assert saved[RankIn(saved, owner, id)] == all[RankIn(saved, owner, id)];
    SavedAt(all, s.sources[0], RankIn(saved, owner, id));
    assert all[|saved|] == Preference("", x, false);
    SavedAt(all, s.sources[1], |saved|);
    hide RankIn;
    AddsLast(s, "", y);
    hide Do;
  }

  /** Moving the first source behind the others lets its second preference count, which is before theirs. */
  lemma {:induction false} MoveUpsets(s: State, saved: seq<Preference>, owner: string, id: string, x: string, y: string, j: nat)
    requires ThreeAdded(s, saved, owner, id, x, y) && RankIn(saved, owner, id) < j < |saved|
    requires saved[j].owner == owner && saved[j].id == id
    requires x != id && y != id && x != y && forall p <- saved :: p.id != x && p.id != y
    ensures var t := Do(s, DoMove(1, 2)); !Ordered(t.sources, t.preferences)
  {
    var t := Do(s, DoMove(1, 2));
    var n, r := |saved|, RankIn(saved, owner, id);
    FirstThreeRanks(s, saved, owner, id, x, y);
    assert IndexOf(s.sources, 1) == 0;
    hide RankIn, IndexOf;
    assert t.sources[1] == s.sources[1] && t.sources[2] == s.sources[0];
    assert t.preferences == Swap(s.preferences, r, n + 1);
    assert t.preferences[j] == saved[j];
    SavedAt(t.preferences, t.sources[2], j);
    forall k | 0 <= k < n ensures t.preferences[k].id != x { assert k != r ==> saved[k] in saved; }
    LateRank(t.preferences, t.sources[1], n);
    if Ordered(t.sources, t.preferences) { OrderedAt(t.sources, t.preferences, 1, 2); }
  }

  lemma {:induction false} LateRank(preferences: seq<Preference>, source: Source, n: nat)
    requires n <= |preferences| && forall k :: 0 <= k < n ==> preferences[k].id != source.id
    ensures Rank(preferences, source) >= n
  {}

  lemma {:induction false} FirstThreeRanks(s: State, saved: seq<Preference>, owner: string, id: string, x: string, y: string)
    requires ThreeAdded(s, saved, owner, id, x, y) && RankIn(saved, owner, id) < |saved|
    requires x != y && forall p <- saved :: p.id != x && p.id != y
    ensures Rank(s.preferences, s.sources[0]) == RankIn(saved, owner, id) && Rank(s.preferences, s.sources[2]) == |saved| + 1
  {
    var n, r := |saved|, RankIn(saved, owner, id);
    assert forall k :: 0 <= k < n ==> s.preferences[k] == saved[k];
    SavedAt(s.preferences, s.sources[0], r);
    SavedAt(s.preferences, s.sources[2], n + 1);
    forall k | 0 <= k < n ensures s.preferences[k].id != y { assert saved[k] in saved; }
    LateRank(s.preferences, s.sources[2], n + 1);
  }

  /** With an owner and valid id saved twice, that run loses the order. */
  lemma {:induction false} UpsetLosesOrder(saved: seq<Preference>, i: nat, j: nat)
    requires i < j < |saved| && saved[i].owner == saved[j].owner && saved[i].id == saved[j].id && ValidText(saved[i].id)
    ensures var t := Run(Loaded(saved), Upset(saved, saved[i].owner, saved[i].id)); !Ordered(t.sources, t.preferences)
  {
    var owner, id := saved[i].owner, saved[i].id;
    var n, ops := Longest(saved), Upset(saved, owner, id);
    var x, y := Letters(n + 1), Letters(n + 2);
    var s0 := Loaded(saved);
    RunsFour(s0, ops);
    assert saved[i] in saved && forall p <- saved :: |p.id| <= n;
    assert RankIn(saved, owner, id) <= i;
    hide RankIn, Do, Run, Ordered;
    AddsFirst(saved, owner, id);
    AddsSecond(Do(s0, ops[0]), saved, owner, id, x);
    AddsThird(Do(Do(s0, ops[0]), ops[1]), saved, owner, id, x, y);
    MoveUpsets(Do(Do(Do(s0, ops[0]), ops[1]), ops[2]), saved, owner, id, x, y, j);
  }

  lemma {:induction false} RunsFour(s: State, ops: seq<Operation>)
    requires |ops| == 4
    ensures Run(s, ops) == Do(Do(Do(Do(s, ops[0]), ops[1]), ops[2]), ops[3])
  {
    hide Do;
    assert ops[..3][..2] == ops[..2] && ops[..2][..1] == ops[..1] && ops[..1] == [ops[0]];
    assert Run(s, []) == s && Run(s, ops[..1]) == Do(s, ops[0]);
    assert Run(s, ops[..2]) == Do(Run(s, ops[..1]), ops[1]);
    assert Run(s, ops[..3]) == Do(Run(s, ops[..2]), ops[2]);
  }

  /** The order is kept by every sequence of operations exactly when no owner and valid id is saved twice. */
  lemma {:induction false} OrderNeedsDistinct(saved: seq<Preference>)
    ensures KeepsOrder(saved) <==> Distinct(saved)
  {
    if Distinct(saved) {
      assert Good(Loaded(saved));
      forall ops: seq<Operation> ensures Ordered(Run(Loaded(saved), ops).sources, Run(Loaded(saved), ops).preferences) {
        AlwaysOrdered(Loaded(saved), ops);
      }
    } else {
      var i, j :| 0 <= i < j < |saved| && saved[i].owner == saved[j].owner && saved[i].id == saved[j].id && ValidText(saved[i].id);
      UpsetLosesOrder(saved, i, j);
    }
  }
}
