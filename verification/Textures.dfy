/**
 The texture sources of client/src/textures.cpp: their order against the saved preferences, and the
 revision by which `Dispatch` notices changes made while it does not hold the lock.
 */
module Textures {
  import opened Machine
  import opened Options

  type ModuleId = nat

  const PENDING: nat := 1  // names for the states; their values do not matter here
  const DISABLED: nat := 0
  const UNNOTIFIED: nat := MAX_32

  datatype Preference = Preference(owner: string, id: string, enabled: bool)

  datatype Source = Source(handle: u32, owner: string, id: string, path: string, module_: Option<ModuleId>, enabled: bool,
                           state: nat, notifiedState: nat, notifiedPriority: nat)

  /** `changes` counts the changes; the revision is that count in 64 bits. */
  datatype State = State(sources: seq<Source>, preferences: seq<Preference>, nextHandle: u32, changes: nat, dirty: bool, savePending: bool)

  function Count64(n: nat): u64 { n % TWO_64 }

  function Revision(s: State): u64 { Count64(s.changes) }

  // ---------------------------------------------------------------- rank

  /** The first preference for this owner and id, or the end. */
  function RankIn(preferences: seq<Preference>, owner: string, id: string): (r: nat)
    ensures r <= |preferences|
    ensures r < |preferences| ==> preferences[r].owner == owner && preferences[r].id == id
    ensures forall k :: 0 <= k < r ==> !(preferences[k].owner == owner && preferences[k].id == id)
  {
    if preferences == [] then 0
    else if preferences[0].owner == owner && preferences[0].id == id then 0
    else 1 + RankIn(preferences[1..], owner, id)
  }

  function Rank(preferences: seq<Preference>, source: Source): nat { RankIn(preferences, source.owner, source.id) }

  predicate ValidText(text: string) { text != "" && forall c <- text :: c != '\0' }

  /** Every owner and id that a source can have is saved once. */
  ghost predicate Distinct(preferences: seq<Preference>)
  {
    forall i, j :: 0 <= i < j < |preferences| && preferences[i].owner == preferences[j].owner && preferences[i].id == preferences[j].id ==>
      !ValidText(preferences[i].id)
  }

  lemma {:induction false} RankAt(preferences: seq<Preference>, source: Source, k: nat)
    requires Distinct(preferences) && k < |preferences| && ValidText(source.id)
    requires preferences[k].owner == source.owner && preferences[k].id == source.id
    ensures Rank(preferences, source) == k
  {
    var r := Rank(preferences, source);
    assert r <= k;
    assert r < |preferences|;
  }

  // ---------------------------------------------------------------- the operations

  function IndexOf(sources: seq<Source>, handle: u32): (r: nat)
    ensures r <= |sources|
    ensures r < |sources| ==> sources[r].handle == handle
    ensures forall k :: 0 <= k < r ==> sources[k].handle != handle
  {
    if sources == [] then 0 else if sources[0].handle == handle then 0 else 1 + IndexOf(sources[1..], handle)
  }

  predicate Registered(sources: seq<Source>, owner: string, id: string)
  {
    exists s <- sources :: s.owner == owner && s.id == id
  }

  /** Where a source of this rank is inserted: before the first of higher rank. */
  function Place(sources: seq<Source>, preferences: seq<Preference>, rank: nat): (r: nat)
    ensures r <= |sources|
    ensures forall k :: 0 <= k < r ==> Rank(preferences, sources[k]) <= rank
    ensures r < |sources| ==> Rank(preferences, sources[r]) > rank
  {
    if sources == [] then 0
    else if Rank(preferences, sources[0]) > rank then 0
    else 1 + Place(sources[1..], preferences, rank)
  }

  function Changed(s: State): State { s.(changes := s.changes + 1, dirty := true) }

  function Creates(s: State, owner: string, id: string, name: string, path: string): bool
  {
    ValidText(id) && ValidText(name) && ValidText(path) && s.nextHandle != MAX_32 && !Registered(s.sources, owner, id)
  }

  /** The new source and where it goes. */
  function Added(s: State, module_: Option<ModuleId>, owner: string, id: string, path: string, enabled: bool): (r: (Source, seq<Preference>))
    requires s.nextHandle != MAX_32
    ensures Rank(r.1, r.0) == RankIn(s.preferences, owner, id) < |r.1| && r.1[RankIn(s.preferences, owner, id)].enabled == r.0.enabled
    ensures r.0.owner == owner && r.0.id == id && r.0.handle == s.nextHandle + 1 && r.0.path == path && r.0.module_ == module_
  {
    var rank := RankIn(s.preferences, owner, id);
    var preferences := if rank == |s.preferences| then s.preferences + [Preference(owner, id, enabled)] else s.preferences;
    var on := preferences[rank].enabled;
    var source := Source(s.nextHandle + 1, owner, id, path, module_, on, if on then PENDING else DISABLED, UNNOTIFIED, UNNOTIFIED);
    assert Rank(preferences, source) == rank by { FirstRank(s.preferences, preferences, owner, id); }
    (source, preferences)
  }

  lemma {:induction false} FirstRank(preferences: seq<Preference>, now: seq<Preference>, owner: string, id: string)
    requires preferences <= now && RankIn(preferences, owner, id) < |now|
    requires now[RankIn(preferences, owner, id)].owner == owner && now[RankIn(preferences, owner, id)].id == id
    ensures RankIn(now, owner, id) == RankIn(preferences, owner, id)
  {
    var r, t := RankIn(preferences, owner, id), RankIn(now, owner, id);
    assert t <= r && forall k :: 0 <= k < r ==> now[k] == preferences[k];
  }

  function Create(s: State, module_: Option<ModuleId>, owner: string, id: string, name: string, path: string, enabled: bool): State
  {
    if !Creates(s, owner, id, name, path) then s
    else
      var (source, preferences) := Added(s, module_, owner, id, path, enabled);
      var place := Place(s.sources, preferences, Rank(preferences, source));
      Changed(s.(sources := s.sources[..place] + [source] + s.sources[place..], preferences := preferences,
                 nextHandle := s.nextHandle + 1, savePending := true))
  }

  datatype Condition = ByHandle(handle: u32) | ByModule(module_: ModuleId) | ByModules(modules: set<ModuleId>)

  predicate Meets(source: Source, gone: Condition)
  {
    match gone
    case ByHandle(handle) => source.handle == handle
    case ByModule(module_) => source.module_ == Some(module_)
    case ByModules(modules) => source.module_.Some? && source.module_.value in modules
  }

  /** `std::erase_if`. */
  function Keep(sources: seq<Source>, gone: Condition): (r: seq<Source>)
    ensures forall s <- r :: s in sources && !Meets(s, gone)
    ensures |r| <= |sources| && (|r| == |sources| ==> r == sources)
  {
    if sources == [] then []
    else
      var rest := Keep(sources[..|sources| - 1], gone);
      if Meets(sources[|sources| - 1], gone) then rest else rest + [sources[|sources| - 1]]
  }

  function Erase(s: State, gone: Condition): State
  {
    var kept := Keep(s.sources, gone);
    if |kept| == |s.sources| then s else Changed(s.(sources := kept))
  }

  function Destroy(s: State, handle: u32): State { Erase(s, ByHandle(handle)) }

  function Release(s: State, module_: ModuleId): State { Erase(s, ByModule(module_)) }

  function Enable(s: State, handle: u32, enabled: bool): State
  {
    var k := IndexOf(s.sources, handle);
    if k == |s.sources| || s.sources[k].enabled == enabled then s
    else
      var rank := Rank(s.preferences, s.sources[k]);
      var source := s.sources[k].(enabled := enabled, state := if enabled then PENDING else DISABLED);
      var preferences := if rank < |s.preferences| then s.preferences[rank := s.preferences[rank].(enabled := enabled)] else s.preferences;
      Changed(s.(sources := s.sources[k := source], preferences := preferences, savePending := true))
  }

  function Swap<T>(list: seq<T>, i: nat, j: nat): (r: seq<T>)
    requires i < |list| && j < |list|
    ensures |r| == |list| && r[i] == list[j] && r[j] == list[i]
    ensures forall k :: 0 <= k < |list| && k != i && k != j ==> r[k] == list[k]
  {
    list[i := list[j]][j := list[i]]
  }

  predicate Moves(s: State, handle: u32, delta: int)
  {
    IndexOf(s.sources, handle) < |s.sources| && 0 <= IndexOf(s.sources, handle) + delta < |s.sources|
  }

  /** Two sources and their preferences change places. */
  function Exchanged(s: State, k: nat, to: nat): State
    requires k < |s.sources| && to < |s.sources|
    requires Rank(s.preferences, s.sources[k]) < |s.preferences| && Rank(s.preferences, s.sources[to]) < |s.preferences|
  {
    var p, q := Rank(s.preferences, s.sources[k]), Rank(s.preferences, s.sources[to]);
    Changed(s.(sources := Swap(s.sources, k, to), preferences := Swap(s.preferences, p, q), savePending := true))
  }

  function Move(s: State, handle: u32, delta: int): State
  {
    if !Moves(s, handle, delta) then s
    else
      var k := IndexOf(s.sources, handle);
      var to := k + delta;
      var p, q := Rank(s.preferences, s.sources[k]), Rank(s.preferences, s.sources[to]);
      var preferences := if p < |s.preferences| && q < |s.preferences| then Swap(s.preferences, p, q) else s.preferences;
      Changed(s.(sources := Swap(s.sources, k, to), preferences := preferences, savePending := true))
  }

  function Reload(s: State, handle: u32): State
  {
    if IndexOf(s.sources, handle) == |s.sources| then s else Changed(s)
  }

  // ---------------------------------------------------------------- the order

  ghost function Ranks(sources: seq<Source>, preferences: seq<Preference>): seq<nat>
  {
    seq(|sources|, i requires 0 <= i < |sources| => Rank(preferences, sources[i]))
  }

  ghost predicate Rising(ranks: seq<nat>)
  {
    forall i, j :: 0 <= i < j < |ranks| ==> ranks[i] < ranks[j]
  }

  /** The source is saved, with its flag. */
  ghost predicate Flagged(preferences: seq<Preference>, source: Source)
  {
    Rank(preferences, source) < |preferences| && preferences[Rank(preferences, source)].enabled == source.enabled
  }

  /** Sources stand in the order of their preferences, with the saved flags. */
  ghost predicate Ordered(sources: seq<Source>, preferences: seq<Preference>)
  {
    (forall i :: 0 <= i < |sources| ==> Flagged(preferences, sources[i])) && Rising(Ranks(sources, preferences))
  }

  /** Every source has a handle of its own, and an id that could be registered. */
  ghost predicate Handled(sources: seq<Source>, nextHandle: u32)
  {
    && (forall i :: 0 <= i < |sources| ==> 0 < sources[i].handle <= nextHandle && ValidText(sources[i].id))
    && (forall i, j :: 0 <= i < j < |sources| ==> sources[i].handle != sources[j].handle)
  }

  ghost predicate Good(s: State)
  {
    Distinct(s.preferences) && Ordered(s.sources, s.preferences) && Handled(s.sources, s.nextHandle)
  }

  /** A preference at the end changes no rank that was inside. */
  lemma {:induction false} RankAppends(preferences: seq<Preference>, more: Preference, source: Source)
    requires Rank(preferences, source) < |preferences|
    ensures Rank(preferences + [more], source) == Rank(preferences, source)
  {
    var r, t := Rank(preferences, source), Rank(preferences + [more], source);
    assert (preferences + [more])[r] == preferences[r];
    assert t <= r;
    assert (preferences + [more])[t] == preferences[t];
  }

  /** The order, from the ranks one by one. */
  lemma {:induction false} OrderedFrom(sources: seq<Source>, preferences: seq<Preference>, ranks: seq<nat>)
    requires |ranks| == |sources| && Rising(ranks)
    requires forall i :: 0 <= i < |sources| ==> Flagged(preferences, sources[i]) && Rank(preferences, sources[i]) == ranks[i]
    ensures Ordered(sources, preferences)
  {
    hide Rank, Flagged;
    assert Ranks(sources, preferences) == ranks;
  }

  lemma {:induction false} OrderedAt(sources: seq<Source>, preferences: seq<Preference>, i: nat, j: nat)
    requires Ordered(sources, preferences) && i < |sources| && j < |sources|
    ensures Flagged(preferences, sources[i]) && (i < j ==> Rank(preferences, sources[i]) < Rank(preferences, sources[j]))
    ensures Ranks(sources, preferences)[i] == Rank(preferences, sources[i])
    ensures i != j ==> Rank(preferences, sources[i]) != Rank(preferences, sources[j])
  {
    hide Rank, Flagged;
    var ranks := Ranks(sources, preferences);
    assert ranks[i] == Rank(preferences, sources[i]) && ranks[j] == Rank(preferences, sources[j]);
  }

  lemma {:induction false} FlaggedAppends(preferences: seq<Preference>, more: Preference, sources: seq<Source>)
    requires Ordered(sources, preferences)
    ensures Ordered(sources, preferences + [more])
  {
    var now := preferences + [more];
    forall i | 0 <= i < |sources| ensures Flagged(now, sources[i]) && Rank(now, sources[i]) == Rank(preferences, sources[i]) {
      assert Flagged(preferences, sources[i]);
      RankAppends(preferences, more, sources[i]);
    }
    hide Rank;
    assert Ranks(sources, now) == Ranks(sources, preferences);
  }

  lemma {:induction false} RisingInsert(ranks: seq<nat>, p: nat, r: nat)
    requires Rising(ranks) && p <= |ranks| && (forall k :: 0 <= k < p ==> ranks[k] < r) && (p < |ranks| ==> r < ranks[p])
    ensures Rising(ranks[..p] + [r] + ranks[p..])
  {}

  lemma {:induction false} OtherRank(sources: seq<Source>, preferences: seq<Preference>, source: Source, k: nat)
    requires k < |sources| && !Registered(sources, source.owner, source.id)
    requires Flagged(preferences, source) && Flagged(preferences, sources[k])
    ensures Rank(preferences, sources[k]) != Rank(preferences, source)
  {
    assert sources[k] in sources;
  }

  /** Inserting by rank keeps the order, as nobody else has that rank. */
  lemma {:induction false} InsertOrdered(sources: seq<Source>, preferences: seq<Preference>, source: Source, rank: nat)
    requires Ordered(sources, preferences) && rank == Rank(preferences, source) && Flagged(preferences, source)
    requires !Registered(sources, source.owner, source.id)
    ensures var place := Place(sources, preferences, rank);
            Ordered(sources[..place] + [source] + sources[place..], preferences)
  {
    var place := Place(sources, preferences, rank);
    var now := sources[..place] + [source] + sources[place..];
    var ranks := Ranks(sources, preferences);
    assert Rising(ranks);
    hide Rank, Place, Registered, Flagged, Ordered;
    forall k | 0 <= k < |sources| ensures ranks[k] != rank && Flagged(preferences, sources[k]) {
      OrderedAt(sources, preferences, k, k);
      OtherRank(sources, preferences, source, k);
    }
    RisingInsert(ranks, place, rank);
    InsertedFrom(sources, preferences, source, ranks, place);
  }

  lemma {:induction false} InsertedFrom(sources: seq<Source>, preferences: seq<Preference>, source: Source, ranks: seq<nat>, place: nat)
    requires place <= |sources| == |ranks| && Flagged(preferences, source)
    requires forall i :: 0 <= i < |sources| ==> Flagged(preferences, sources[i]) && Rank(preferences, sources[i]) == ranks[i]
    requires Rising(ranks[..place] + [Rank(preferences, source)] + ranks[place..])
    ensures Ordered(sources[..place] + [source] + sources[place..], preferences)
  {
    hide Rank, Flagged, Rising, Ordered;
    var now, after := sources[..place] + [source] + sources[place..], ranks[..place] + [Rank(preferences, source)] + ranks[place..];
    forall i | 0 <= i < |now| ensures Flagged(preferences, now[i]) && Rank(preferences, now[i]) == after[i] {
      if i > place { assert now[i] == sources[i - 1] && after[i] == ranks[i - 1]; }
    }
    OrderedFrom(now, preferences, after);
  }

  lemma {:induction false} HandledInsert(sources: seq<Source>, nextHandle: u32, source: Source, place: nat)
    requires Handled(sources, nextHandle) && nextHandle < MAX_32 && source.handle == nextHandle + 1 && place <= |sources|
    requires ValidText(source.id)
    ensures Handled(sources[..place] + [source] + sources[place..], nextHandle + 1)
  {}

  lemma {:induction false} DistinctAppends(preferences: seq<Preference>, more: Preference)
    requires Distinct(preferences) && RankIn(preferences, more.owner, more.id) == |preferences|
    ensures Distinct(preferences + [more])
  {}

  lemma {:induction false} CreateKeeps(s: State, module_: Option<ModuleId>, owner: string, id: string, name: string, path: string, enabled: bool)
    requires Good(s)
    ensures Good(Create(s, module_, owner, id, name, path, enabled))
  {
    if Creates(s, owner, id, name, path) {
      var (source, preferences) := Added(s, module_, owner, id, path, enabled);
      var rank := Rank(preferences, source);
      if RankIn(s.preferences, owner, id) == |s.preferences| {
        FlaggedAppends(s.preferences, Preference(owner, id, enabled), s.sources);
        DistinctAppends(s.preferences, Preference(owner, id, enabled));
      }
      hide Ordered, Place, Registered, Distinct, RankIn, Handled;
      InsertOrdered(s.sources, preferences, source, rank);
      HandledInsert(s.sources, s.nextHandle, source, Place(s.sources, preferences, rank));
    }
  }

  // ---------------------------------------------------------------- erasing, enabling, moving

  lemma {:induction false} OrderedNext(front: seq<Source>, preferences: seq<Preference>, last: Source)
    requires Ordered(front, preferences) && Flagged(preferences, last)
    requires forall s <- front :: Rank(preferences, s) < Rank(preferences, last)
    ensures Ordered(front + [last], preferences)
  {
    hide Rank, Flagged;
    var ranks := Ranks(front, preferences);
    forall k | 0 <= k < |front| ensures ranks[k] < Rank(preferences, last) { assert front[k] in front; }
    OrderedFrom(front + [last], preferences, ranks + [Rank(preferences, last)]);
  }

  /** The sources before the last one, which outranks them. */
  lemma {:induction false} OrderedFront(sources: seq<Source>, preferences: seq<Preference>)
    requires Ordered(sources, preferences) && sources != []
    ensures Ordered(sources[..|sources| - 1], preferences) && Flagged(preferences, sources[|sources| - 1])
    ensures forall s <- sources[..|sources| - 1] :: Rank(preferences, s) < Rank(preferences, sources[|sources| - 1])
  {
    var n := |sources| - 1;
    var front := sources[..n];
    OrderedAt(sources, preferences, n, n);
    forall s <- front ensures Rank(preferences, s) < Rank(preferences, sources[n]) {
      var k :| 0 <= k < |front| && front[k] == s;
      OrderedAt(sources, preferences, k, n);
    }
    forall k | 0 <= k < n ensures Flagged(preferences, front[k]) && Rank(preferences, front[k]) == Ranks(sources, preferences)[k] {
      OrderedAt(sources, preferences, k, n);
    }
    hide Rank, Flagged;
    OrderedFrom(front, preferences, Ranks(sources, preferences)[..n]);
  }

  lemma {:induction false} KeepOrdered(sources: seq<Source>, preferences: seq<Preference>, gone: Condition)
    requires Ordered(sources, preferences)
    ensures Ordered(Keep(sources, gone), preferences)
  {
    hide Ordered, Rank, Flagged;
    if sources == [] {
      assert Keep(sources, gone) == sources;
    } else {
      OrderedFront(sources, preferences);
      KeepOrdered(sources[..|sources| - 1], preferences, gone);
      if !Meets(sources[|sources| - 1], gone) { OrderedNext(Keep(sources[..|sources| - 1], gone), preferences, sources[|sources| - 1]); }
    }
  }

  lemma {:induction false} KeepHandled(sources: seq<Source>, gone: Condition, nextHandle: u32)
    requires Handled(sources, nextHandle)
    ensures Handled(Keep(sources, gone), nextHandle)
  {
    if sources != [] {
      var front, last := sources[..|sources| - 1], sources[|sources| - 1];
      KeepHandled(front, gone, nextHandle);
      var kept := Keep(front, gone);
      forall k | 0 <= k < |kept| ensures kept[k].handle != last.handle {
        assert kept[k] in front;
      }
    }
  }

  lemma {:induction false} EraseKeeps(s: State, gone: Condition)
    requires Good(s)
    ensures Good(Erase(s, gone))
  {
    hide Ordered, Handled, Distinct;
    KeepOrdered(s.sources, s.preferences, gone);
    KeepHandled(s.sources, gone, s.nextHandle);
  }

  /** Setting flags changes no rank. */
  lemma {:induction false} FlagsKeepRanks(preferences: seq<Preference>, k: nat, enabled: bool, source: Source)
    requires k < |preferences|
    ensures Rank(preferences[k := preferences[k].(enabled := enabled)], source) == Rank(preferences, source)
  {
    var now := preferences[k := preferences[k].(enabled := enabled)];
    var r, t := Rank(preferences, source), Rank(now, source);
    assert r < |preferences| ==> now[r].owner == source.owner && now[r].id == source.id;
    assert t < |preferences| ==> preferences[t].owner == source.owner && preferences[t].id == source.id;
  }

  lemma {:induction false} EnableKeeps(s: State, handle: u32, enabled: bool)
    requires Good(s)
    ensures Good(Enable(s, handle, enabled))
  {
    var k := IndexOf(s.sources, handle);
    if k < |s.sources| && s.sources[k].enabled != enabled {
      OrderedAt(s.sources, s.preferences, k, k);
      EnabledOrdered(s.sources, s.preferences, k, s.sources[k].(enabled := enabled, state := if enabled then PENDING else DISABLED));
      FlagsDistinct(s.preferences, Rank(s.preferences, s.sources[k]), enabled);
      hide Rank, Flagged, Distinct, Ordered, IndexOf;
    }
  }

  lemma {:induction false} EnabledOrdered(sources: seq<Source>, preferences: seq<Preference>, k: nat, source: Source)
    requires Ordered(sources, preferences) && k < |sources| && source.owner == sources[k].owner && source.id == sources[k].id
    requires Rank(preferences, sources[k]) < |preferences|
    ensures var rank := Rank(preferences, sources[k]);
            Ordered(sources[k := source], preferences[rank := preferences[rank].(enabled := source.enabled)])
  {
    var rank := Rank(preferences, sources[k]);
    var now := preferences[rank := preferences[rank].(enabled := source.enabled)];
    var after := sources[k := source];
    forall i | 0 <= i < |after| ensures Flagged(now, after[i]) && Rank(now, after[i]) == Ranks(sources, preferences)[i] {
      OrderedAt(sources, preferences, i, k);
      FlagsKeepRanks(preferences, rank, source.enabled, after[i]);
    }
    hide Rank, Flagged;
    OrderedFrom(after, now, Ranks(sources, preferences));
  }

  lemma {:induction false} FlagsDistinct(preferences: seq<Preference>, k: nat, enabled: bool)
    requires Distinct(preferences) && k < |preferences|
    ensures Distinct(preferences[k := preferences[k].(enabled := enabled)])
  {}

  /** After two preferences trade places, so do the ranks of their owners, and no others. */
  lemma {:induction false} SwapRanks(preferences: seq<Preference>, p: nat, q: nat, source: Source)
    requires Distinct(preferences) && p < |preferences| && q < |preferences| && Rank(preferences, source) < |preferences|
    requires ValidText(source.id)
    ensures Distinct(Swap(preferences, p, q))
    ensures var r := Rank(preferences, source);
            Rank(Swap(preferences, p, q), source) == if r == p then q else if r == q then p else r
  {
    var now := Swap(preferences, p, q);
    var r := Rank(preferences, source);
    assert Distinct(now);
    RankAt(now, source, if r == p then q else if r == q then p else r);
  }

  lemma {:induction false} MoveKeeps(s: State, handle: u32, delta: int)
    requires Good(s)
    ensures Good(Move(s, handle, delta))
  {
    if Moves(s, handle, delta) {
      hide Rank, Good, Move, IndexOf, Exchanged;
      MovedGood(s, IndexOf(s.sources, handle), IndexOf(s.sources, handle) + delta);
      MoveIs(s, handle, delta);
    }
  }

  lemma {:induction false} MovedGood(s: State, k: nat, to: nat)
    requires Good(s) && k < |s.sources| && to < |s.sources|
    ensures var p, q := Rank(s.preferences, s.sources[k]), Rank(s.preferences, s.sources[to]);
            && p < |s.preferences| && q < |s.preferences| && Good(Exchanged(s, k, to))
  {
    MovedOrdered(s, k, to);
    hide Rank, Distinct, Ordered, Swap;
    SwapHandled(s.sources, s.nextHandle, k, to);
    hide Handled;
  }

  lemma {:induction false} MoveIs(s: State, handle: u32, delta: int)
    requires Moves(s, handle, delta)
    requires Rank(s.preferences, s.sources[IndexOf(s.sources, handle)]) < |s.preferences|
    requires Rank(s.preferences, s.sources[IndexOf(s.sources, handle) + delta]) < |s.preferences|
    ensures Move(s, handle, delta) == Exchanged(s, IndexOf(s.sources, handle), IndexOf(s.sources, handle) + delta)
  {
    hide Rank, Swap, IndexOf;
  }

  lemma {:induction false} MovedOrdered(s: State, k: nat, to: nat)
    requires Good(s) && k < |s.sources| && to < |s.sources|
    ensures var p, q := Rank(s.preferences, s.sources[k]), Rank(s.preferences, s.sources[to]);
            && p < |s.preferences| && q < |s.preferences| && Distinct(Swap(s.preferences, p, q))
            && Ordered(Swap(s.sources, k, to), Swap(s.preferences, p, q))
  {
    OrderedAt(s.sources, s.preferences, k, k);
    OrderedAt(s.sources, s.preferences, to, to);
    var p, q := Rank(s.preferences, s.sources[k]), Rank(s.preferences, s.sources[to]);
    var t := s.(sources := Swap(s.sources, k, to), preferences := Swap(s.preferences, p, q));
    forall i | 0 <= i < |t.sources|
      ensures Flagged(t.preferences, t.sources[i]) && Rank(t.preferences, t.sources[i]) == Ranks(s.sources, s.preferences)[i]
    {
      MovedRank(s, t, k, to, i);
    }
    SwapRanks(s.preferences, p, q, s.sources[k]);
    hide Rank, Flagged, Distinct;
    OrderedFrom(t.sources, t.preferences, Ranks(s.sources, s.preferences));
  }

  lemma {:induction false} SwapHandled(sources: seq<Source>, nextHandle: u32, i: nat, j: nat)
    requires Handled(sources, nextHandle) && i < |sources| && j < |sources|
    ensures Handled(Swap(sources, i, j), nextHandle)
  {}

  /** At every position stands a source of the rank that stood there. */
  lemma {:induction false} MovedRank(s: State, t: State, k: nat, to: nat, i: nat)
    requires Good(s) && k < |s.sources| && to < |s.sources| && i < |s.sources| && t.sources == Swap(s.sources, k, to)
    requires Flagged(s.preferences, s.sources[k]) && Flagged(s.preferences, s.sources[to])
    requires t.preferences == Swap(s.preferences, Rank(s.preferences, s.sources[k]), Rank(s.preferences, s.sources[to]))
    ensures Flagged(t.preferences, t.sources[i]) && Rank(t.preferences, t.sources[i]) == Ranks(s.sources, s.preferences)[i]
  {
    var from := if i == k then to else if i == to then k else i;
    OrderedAt(s.sources, s.preferences, from, k);
    OrderedAt(s.sources, s.preferences, from, to);
    OrderedAt(s.sources, s.preferences, i, i);
    SwapRanks(s.preferences, Rank(s.preferences, s.sources[k]), Rank(s.preferences, s.sources[to]), s.sources[from]);
  }

  // ---------------------------------------------------------------- every sequence of operations

  datatype Operation =
    | DoCreate(module_: Option<ModuleId>, owner: string, id: string, name: string, path: string, enabled: bool)
    | DoDestroy(handle: u32)
    | DoRelease(released: ModuleId)
    | DoEnable(handle: u32, on: bool)
    | DoMove(handle: u32, delta: int)
    | DoReload(handle: u32)
    | DoBegin(disabled: set<ModuleId>)                  // the three critical sections of `Dispatch`
    | DoApply(applied: u64, hostState: nat)
    | DoNotify(told: u32, state: nat, priority: nat)

  function Do(s: State, op: Operation): State
  {
    match op
    case DoCreate(module_, owner, id, name, path, enabled) => Create(s, module_, owner, id, name, path, enabled)
    case DoDestroy(handle) => Destroy(s, handle)
    case DoRelease(module_) => Release(s, module_)
    case DoEnable(handle, on) => Enable(s, handle, on)
    case DoMove(handle, delta) => Move(s, handle, delta)
    case DoReload(handle) => Reload(s, handle)
    case DoBegin(disabled) => Begin(s, disabled)
    case DoApply(applied, state) => Apply(s, applied, state)
    case DoNotify(handle, state, priority) => Notify(s, handle, state, priority)
  }

  /** `Dispatch` first drops the sources of disabled modules; the host is then told of all that is dirty. */
  function Begin(s: State, disabled: set<ModuleId>): State
  {
    Erase(s, ByModules(disabled)).(dirty := false, savePending := false)
  }

  function WithState(sources: seq<Source>, state: nat): (r: seq<Source>)
    ensures |r| == |sources|
    ensures forall i :: 0 <= i < |sources| ==> r[i] == sources[i].(state := if sources[i].enabled then state else DISABLED)
  {
    seq(|sources|, i requires 0 <= i < |sources| => sources[i].(state := if sources[i].enabled then state else DISABLED))
  }

  /** Unless there were changes since, every source gets the state that the host reports. */
  function Apply(s: State, applied: u64, state: nat): State
  {
    if Revision(s) == applied then s.(sources := WithState(s.sources, state)) else s
  }

  /** What `Dispatch` notes down when it tells a module. */
  function Notify(s: State, handle: u32, state: nat, priority: nat): State
  {
    var k := IndexOf(s.sources, handle);
    if k == |s.sources| then s
    else s.(sources := s.sources[k := s.sources[k].(notifiedState := state, notifiedPriority := priority)])
  }

  function Run(s: State, ops: seq<Operation>): State
  {
    if ops == [] then s else Do(Run(s, ops[..|ops| - 1]), ops[|ops| - 1])
  }

  /** Sources that differ from those before in no more than what was told, or their state, are as good. */
  lemma {:induction false} SameRanksGood(s: State, sources: seq<Source>)
    requires Good(s) && |sources| == |s.sources|
    requires forall i :: 0 <= i < |sources| ==> sources[i].handle == s.sources[i].handle && sources[i].owner == s.sources[i].owner
                                                && sources[i].id == s.sources[i].id && sources[i].enabled == s.sources[i].enabled
    ensures Good(s.(sources := sources))
  {
    forall i | 0 <= i < |sources|
      ensures Flagged(s.preferences, sources[i]) && Rank(s.preferences, sources[i]) == Ranks(s.sources, s.preferences)[i]
    {
      OrderedAt(s.sources, s.preferences, i, i);
    }
    hide Rank, Flagged, Distinct;
    OrderedFrom(sources, s.preferences, Ranks(s.sources, s.preferences));
  }

  lemma {:induction false} NotifyKeeps(s: State, handle: u32, state: nat, priority: nat)
    requires Good(s)
    ensures Good(Notify(s, handle, state, priority))
  {
    hide Good;
    SameRanksGood(s, Notify(s, handle, state, priority).sources);
  }

  lemma {:induction false} ApplyKeeps(s: State, applied: u64, state: nat)
    requires Good(s)
    ensures Good(Apply(s, applied, state))
  {
    hide Good;
    SameRanksGood(s, WithState(s.sources, state));
  }

  lemma {:induction false} BeginKeeps(s: State, disabled: set<ModuleId>)
    requires Good(s)
    ensures Good(Begin(s, disabled))
  {
    EraseKeeps(s, ByModules(disabled));
    hide Ordered, Handled, Distinct, Erase;
  }

  lemma {:induction false} DoKeeps(s: State, op: Operation)
    requires Good(s)
    ensures Good(Do(s, op))
  {
    hide Good;
    match op
    case DoCreate(module_, owner, id, name, path, enabled) => CreateKeeps(s, module_, owner, id, name, path, enabled);
    case DoDestroy(handle) => EraseKeeps(s, ByHandle(handle));
    case DoRelease(module_) => EraseKeeps(s, ByModule(module_));
    case DoEnable(handle, on) => EnableKeeps(s, handle, on);
    case DoMove(handle, delta) => MoveKeeps(s, handle, delta);
    case DoReload(handle) => ReloadKeeps(s, handle);
    case DoBegin(disabled) => BeginKeeps(s, disabled);
    case DoApply(applied, state) => ApplyKeeps(s, applied, state);
    case DoNotify(handle, state, priority) => NotifyKeeps(s, handle, state, priority);
  }

  lemma {:induction false} ReloadKeeps(s: State, handle: u32)
    requires Good(s)
    ensures Good(Reload(s, handle))
  {
    hide Ordered, Handled, Distinct;
  }

  /** Sources are always in the order of their preferences, each under its own rank, with the saved flags. */
  lemma {:induction false} AlwaysOrdered(s: State, ops: seq<Operation>)
    requires Good(s)
    ensures Good(Run(s, ops))
  {
    hide Good, Do;
    if ops != [] {
      AlwaysOrdered(s, ops[..|ops| - 1]);
      DoKeeps(Run(s, ops[..|ops| - 1]), ops[|ops| - 1]);
    }
  }

  // ---------------------------------------------------------------- every source is saved

  /** Every source has a preference; so the ranks that `Enable` and `Move` index with are inside the list. */
  ghost predicate AllSaved(s: State)
  {
    forall i :: 0 <= i < |s.sources| ==> Rank(s.preferences, s.sources[i]) < |s.preferences|
  }

  lemma {:induction false} SavedAt(preferences: seq<Preference>, source: Source, k: nat)
    requires k < |preferences| && preferences[k].owner == source.owner && preferences[k].id == source.id
    ensures Rank(preferences, source) <= k
  {}

  /** A list with all the owners and ids of another ranks what that one ranks. */
  lemma {:induction false} SavedStill(was: seq<Preference>, now: seq<Preference>, source: Source, k: nat)
    requires Rank(was, source) < |was| && k < |now|
    requires now[k].owner == was[Rank(was, source)].owner && now[k].id == was[Rank(was, source)].id
    ensures Rank(now, source) < |now|
  {
    SavedAt(now, source, k);
  }

  lemma {:induction false} CreateSaves(s: State, module_: Option<ModuleId>, owner: string, id: string, name: string, path: string, enabled: bool)
    requires AllSaved(s)
    ensures AllSaved(Create(s, module_, owner, id, name, path, enabled))
  {
    var t := Create(s, module_, owner, id, name, path, enabled);
    if Creates(s, owner, id, name, path) {
      var (source, preferences) := Added(s, module_, owner, id, path, enabled);
      var place := Place(s.sources, preferences, Rank(preferences, source));
      hide RankIn, Place, Registered, ValidText;
      forall i | 0 <= i < |t.sources| ensures Rank(t.preferences, t.sources[i]) < |t.preferences| {
        if i != place {
          var was := s.sources[if i < place then i else i - 1];
          assert t.sources[i] == was;
          SavedStill(s.preferences, t.preferences, was, Rank(s.preferences, was));
        }
      }
    }
  }

  lemma {:induction false} EraseSaves(s: State, gone: Condition)
    requires AllSaved(s)
    ensures AllSaved(Erase(s, gone))
  {
    hide RankIn, Keep;
    var t := Erase(s, gone);
    forall i | 0 <= i < |t.sources| ensures Rank(t.preferences, t.sources[i]) < |t.preferences| {
      assert t.sources[i] in t.sources;
    }
  }

  lemma {:induction false} BeginSaves(s: State, disabled: set<ModuleId>)
    requires AllSaved(s)
    ensures AllSaved(Begin(s, disabled))
  {
    EraseSaves(s, ByModules(disabled));
    hide RankIn, Erase;
  }

  lemma {:induction false} EnableSaves(s: State, handle: u32, enabled: bool)
    requires AllSaved(s)
    ensures AllSaved(Enable(s, handle, enabled))
  {
    hide RankIn, IndexOf;
    var t := Enable(s, handle, enabled);
    forall i | 0 <= i < |t.sources| ensures Rank(t.preferences, t.sources[i]) < |t.preferences| {
      SavedStill(s.preferences, t.preferences, s.sources[i], Rank(s.preferences, s.sources[i]));
    }
  }

  lemma {:induction false} MoveSaves(s: State, handle: u32, delta: int)
    requires AllSaved(s)
    ensures AllSaved(Move(s, handle, delta))
  {
    if Moves(s, handle, delta) {
      hide RankIn, IndexOf, Move, Exchanged;
      MoveIs(s, handle, delta);
      MovedSaved(s, IndexOf(s.sources, handle), IndexOf(s.sources, handle) + delta);
    }
  }

  lemma {:induction false} MovedSaved(s: State, k: nat, to: nat)
    requires AllSaved(s) && k < |s.sources| && to < |s.sources|
    ensures var p, q := Rank(s.preferences, s.sources[k]), Rank(s.preferences, s.sources[to]);
            && p < |s.preferences| && q < |s.preferences| && AllSaved(Exchanged(s, k, to))
  {
    hide RankIn, Swap;
    var p, q := Rank(s.preferences, s.sources[k]), Rank(s.preferences, s.sources[to]);
    var preferences := Swap(s.preferences, p, q);
    forall i | 0 <= i < |s.sources| ensures Rank(preferences, s.sources[i]) < |preferences| {
      var r := Rank(s.preferences, s.sources[i]);
      SavedStill(s.preferences, preferences, s.sources[i], if r == p then q else if r == q then p else r);
    }
  }

  lemma {:induction false} DoSaves(s: State, op: Operation)
    requires AllSaved(s)
    ensures AllSaved(Do(s, op))
  {
    hide RankIn, IndexOf;
    match op
    case DoCreate(module_, owner, id, name, path, enabled) => CreateSaves(s, module_, owner, id, name, path, enabled);
    case DoDestroy(handle) => EraseSaves(s, ByHandle(handle));
    case DoRelease(module_) => EraseSaves(s, ByModule(module_));
    case DoEnable(handle, on) => EnableSaves(s, handle, on);
    case DoMove(handle, delta) => MoveSaves(s, handle, delta);
    case DoReload(handle) =>
    case DoBegin(disabled) => BeginSaves(s, disabled);
    case DoApply(applied, state) => StatesSave(s, WithState(s.sources, state));
    case DoNotify(handle, state, priority) => StatesSave(s, Notify(s, handle, state, priority).sources);
  }

  lemma {:induction false} StatesSave(s: State, sources: seq<Source>)
    requires AllSaved(s) && |sources| == |s.sources|
    requires forall i :: 0 <= i < |sources| ==> sources[i].owner == s.sources[i].owner && sources[i].id == s.sources[i].id
    ensures AllSaved(s.(sources := sources))
  {
    hide RankIn;
  }

  /** However the preferences were saved, every source has one in every run. */
  lemma {:induction false} AlwaysSaved(s: State, ops: seq<Operation>)
    requires AllSaved(s)
    ensures AllSaved(Run(s, ops))
  {
    hide AllSaved, Do;
    if ops != [] {
      AlwaysSaved(s, ops[..|ops| - 1]);
      DoSaves(Run(s, ops[..|ops| - 1]), ops[|ops| - 1]);
    }
  }

  // ---------------------------------------------------------------- destroying and creating again

  lemma {:induction false} KeepNext(sources: seq<Source>, last: Source, gone: Condition)
    ensures Keep(sources + [last], gone) == if Meets(last, gone) then Keep(sources, gone) else Keep(sources, gone) + [last]
  {
    assert (sources + [last])[..|sources|] == sources;
  }

  lemma {:induction false} KeepAll(sources: seq<Source>, gone: Condition)
    requires forall s <- sources :: !Meets(s, gone)
    ensures Keep(sources, gone) == sources
  {
    if sources == [] {
      assert Keep(sources, gone) == sources;
    } else {
      hide Meets, Keep;
      var front, last := sources[..|sources| - 1], sources[|sources| - 1];
      assert sources == front + [last];
      assert last in sources && forall s <- front :: s in sources;
      KeepAll(front, gone);
      KeepNext(front, last, gone);
    }
  }

  lemma {:induction false} KeepAround(before: seq<Source>, source: Source, after: seq<Source>, gone: Condition)
    requires Meets(source, gone) && (forall s <- before :: !Meets(s, gone)) && forall s <- after :: !Meets(s, gone)
    ensures Keep(before + [source] + after, gone) == before + after
  {
    if after == [] {
      assert before + [source] + after == before + [source] && before + after == before;
      KeepNext(before, source, gone);
      KeepAll(before, gone);
    } else {
      var front, last := after[..|after| - 1], after[|after| - 1];
      assert before + [source] + after == (before + [source] + front) + [last] && before + after == (before + front) + [last];
      assert last in after && forall s <- front :: s in after;
      KeepAround(before, source, front, gone);
      KeepNext(before + [source] + front, last, gone);
    }
  }

  lemma {:induction false} KeepAllButOne(sources: seq<Source>, i: nat)
    requires i < |sources| && forall k :: 0 <= k < |sources| && k != i ==> sources[k].handle != sources[i].handle
    ensures Keep(sources, ByHandle(sources[i].handle)) == sources[..i] + sources[i + 1..]
  {
    assert sources == sources[..i] + [sources[i]] + sources[i + 1..];
    KeepAround(sources[..i], sources[i], sources[i + 1..], ByHandle(sources[i].handle));
  }

  /** A source that is destroyed and created again stands where it stood, with the flag it had. */
  lemma {:induction false} Recreated(s: State, i: nat, name: string, enabled: bool)
    requires Good(s) && i < |s.sources| && s.nextHandle < MAX_32
    requires ValidText(s.sources[i].id) && ValidText(name) && ValidText(s.sources[i].path)
    ensures var source := s.sources[i];
            var t := Create(Destroy(s, source.handle), source.module_, source.owner, source.id, name, source.path, enabled);
            && t.preferences == s.preferences && |t.sources| == |s.sources|
            && (forall k :: 0 <= k < |s.sources| && k != i ==> t.sources[k] == s.sources[k])
            && t.sources[i].owner == source.owner && t.sources[i].id == source.id && t.sources[i].enabled == source.enabled
            && t.sources[i].handle == s.nextHandle + 1
  {
    var source := s.sources[i];
    var d := Destroy(s, source.handle);
    hide Rank, RankIn, Flagged, Place, Keep, Registered, Ordered, Distinct;
    KeepAllButOne(s.sources, i);
    NotRegistered(s, i);
    OrderedAt(s.sources, s.preferences, i, i);
    PlaceBack(s, i);
    CreatedBack(s, d, i, name, enabled);
  }

  lemma {:induction false} CreatedBack(s: State, d: State, i: nat, name: string, enabled: bool)
    requires i < |s.sources| && s.nextHandle < MAX_32 && Flagged(s.preferences, s.sources[i])
    requires ValidText(s.sources[i].id) && ValidText(name) && ValidText(s.sources[i].path)
    requires d.sources == s.sources[..i] + s.sources[i + 1..] && d.preferences == s.preferences && d.nextHandle == s.nextHandle
    requires !Registered(d.sources, s.sources[i].owner, s.sources[i].id)
    requires Place(d.sources, s.preferences, Rank(s.preferences, s.sources[i])) == i
    ensures var source := s.sources[i];
            var t := Create(d, source.module_, source.owner, source.id, name, source.path, enabled);
            && t.preferences == s.preferences && |t.sources| == |s.sources|
            && (forall k :: 0 <= k < |s.sources| && k != i ==> t.sources[k] == s.sources[k])
            && t.sources[i].owner == source.owner && t.sources[i].id == source.id && t.sources[i].enabled == source.enabled
            && t.sources[i].handle == s.nextHandle + 1
  {
    hide RankIn, Place, Registered;
  }

  lemma {:induction false} NotRegistered(s: State, i: nat)
    requires Good(s) && i < |s.sources|
    ensures !Registered(s.sources[..i] + s.sources[i + 1..], s.sources[i].owner, s.sources[i].id)
  {
    hide RankIn, Flagged, Ordered, Handled, Distinct;
    var others := s.sources[..i] + s.sources[i + 1..];
    forall o <- others ensures !(o.owner == s.sources[i].owner && o.id == s.sources[i].id) {
      var k :| 0 <= k < |others| && others[k] == o;
      OrderedAt(s.sources, s.preferences, if k < i then k else k + 1, i);
    }
  }

  lemma {:induction false} PlaceUnique(sources: seq<Source>, preferences: seq<Preference>, rank: nat, i: nat)
    requires i <= |sources| && (forall k :: 0 <= k < i ==> Rank(preferences, sources[k]) <= rank)
    requires forall k :: i <= k < |sources| ==> Rank(preferences, sources[k]) > rank
    ensures Place(sources, preferences, rank) == i
  {
    hide RankIn;
    if i > 0 {
      assert Rank(preferences, sources[0]) <= rank;
      PlaceUnique(sources[1..], preferences, rank, i - 1);
    } else if sources != [] {
      assert Rank(preferences, sources[0]) > rank;
    }
  }

  lemma {:induction false} PlaceBack(s: State, i: nat)
    requires Good(s) && i < |s.sources|
    ensures Place(s.sources[..i] + s.sources[i + 1..], s.preferences, Rank(s.preferences, s.sources[i])) == i
  {
    var others := s.sources[..i] + s.sources[i + 1..];
    var rank := Rank(s.preferences, s.sources[i]);
    var p := Place(others, s.preferences, rank);
    forall k | 0 <= k < |others| ensures if k < i then Rank(s.preferences, others[k]) < rank else Rank(s.preferences, others[k]) > rank {
      if k < i { OrderedAt(s.sources, s.preferences, k, i); } else { OrderedAt(s.sources, s.preferences, i, k + 1); }
    }
    PlaceUnique(others, s.preferences, rank, i);
  }

  // ---------------------------------------------------------------- the revision

  ghost function Handles(sources: seq<Source>): seq<u32>
  {
    seq(|sources|, i requires 0 <= i < |sources| => sources[i].handle)
  }

  /** An operation that does not count as a change leaves the same sources in the same places. */
  lemma {:induction false} UnchangedSame(s: State, op: Operation)
    ensures Do(s, op).changes >= s.changes
    ensures Do(s, op).changes == s.changes ==> Handles(Do(s, op).sources) == Handles(s.sources)
  {
    hide Rank, Place, Added, Keep, Swap, Registered;
  }

  lemma {:induction false} RunUnchanged(s: State, ops: seq<Operation>)
    ensures Run(s, ops).changes >= s.changes
    ensures Run(s, ops).changes == s.changes ==> Handles(Run(s, ops).sources) == Handles(s.sources)
  {
    hide Do;
    if ops != [] {
      RunUnchanged(s, ops[..|ops| - 1]);
      UnchangedSame(Run(s, ops[..|ops| - 1]), ops[|ops| - 1]);
    }
  }

  /** What `Dispatch` decided to tell a module. */
  datatype Event = Event(module_: ModuleId, handle: u32, state: nat, enabled: bool, priority: nat)

  /** The events for sources from `k` on whose state or place changed since they were last told. */
  function EventsFrom(sources: seq<Source>, state: nat, k: nat): seq<Event>
    requires k <= |sources|
    decreases |sources| - k
  {
    if k == |sources| then []
    else
      var source := sources[k];
      var now := if source.enabled then state else DISABLED;
      var rest := EventsFrom(sources, state, k + 1);
      if (source.notifiedState != now || source.notifiedPriority != k) && source.module_.Some?
      then [Event(source.module_.value, source.handle, now, source.enabled, k)] + rest
      else rest
  }

  /** Every event is of a source. */
  lemma {:induction false} EventOf(sources: seq<Source>, state: nat, k: nat, event: Event) returns (i: nat)
    requires k <= |sources| && event in EventsFrom(sources, state, k)
    ensures k <= i < |sources| && sources[i].handle == event.handle && sources[i].module_ == Some(event.module_) && event.priority == i
    decreases |sources| - k
  {
    if event in EventsFrom(sources, state, k + 1) { i := EventOf(sources, state, k + 1, event); } else { i := k; }
  }

  /** Setting the states does not change which events there are. */
  lemma {:induction false} EventsSame(sources: seq<Source>, state: nat, k: nat)
    requires k <= |sources|
    ensures EventsFrom(WithState(sources, state), state, k) == EventsFrom(sources, state, k)
    decreases |sources| - k
  {
    if k < |sources| { EventsSame(sources, state, k + 1); }
  }

  /**
   However other threads and modules change the sources between two locks of `Dispatch`: if the revision is
   what it was, and has not come round its 64 bits, every source with a pending event still exists.
   */
  lemma {:induction false} UnchangedRevisionFinds(s: State, state: nat, ops: seq<Operation>, event: Event)
    requires event in EventsFrom(s.sources, state, 0)
    requires Revision(Run(s, ops)) == Revision(s) && Run(s, ops).changes - s.changes < TWO_64
    ensures IndexOf(Run(s, ops).sources, event.handle) < |Run(s, ops).sources|
  {
    RunUnchanged(s, ops);
    var t := Run(s, ops);
    hide Run, EventsFrom;
    SameModulo(s.changes, t.changes);
    var i := EventOf(s.sources, state, 0, event);
    assert Handles(t.sources)[i] == Handles(s.sources)[i];
    assert t.sources[i].handle == event.handle;
  }

  lemma {:induction false} SameModulo(x: nat, y: nat)
    requires x <= y < x + TWO_64 && x % TWO_64 == y % TWO_64
    ensures x == y
  {}
}
