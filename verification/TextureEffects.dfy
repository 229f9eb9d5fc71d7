/**
 What each operation of `Texture_Manager` in client/src/textures.cpp does, seen from outside: which sources and
 preferences are there afterwards, and whom `Dispatch` tells what.
 */
module TextureEffects {
  import opened Machine
  import opened Options
  import opened Textures
  import opened TextureDispatch
  import opened TextureManager

  // ---------------------------------------------------------------- creating

  /** The saved flag of an owner and id, the first if there are several. */
  ghost predicate SavedFlag(preferences: seq<Preference>, owner: string, id: string, flag: bool)
  {
    exists k :: 0 <= k < |preferences| && preferences[k] == Preference(owner, id, flag)
                && forall j :: 0 <= j < k ==> preferences[j].owner != owner || preferences[j].id != id
  }

  ghost predicate Unsaved(preferences: seq<Preference>, owner: string, id: string)
  {
    forall p <- preferences :: p.owner != owner || p.id != id
  }

  ghost predicate Named(text: string)
  {
    text != "" && '\0' !in text
  }

  /** A counted change, of which the host and, if asked, the file have to hear. */
  ghost predicate Counts(s: State, t: State, save: bool)
  {
    t.changes == s.changes + 1 && t.dirty && t.savePending == (s.savePending || save)
  }

  /** The new source, with the next handle, its saved flag or, unsaved, the one given, and nothing told about it yet. */
  ghost predicate NewSource(s: State, source: Source, module_: Option<ModuleId>, owner: string, id: string, path: string, enabled: bool)
  {
    && s.nextHandle != 0xFFFF_FFFF
    && source == Source(s.nextHandle + 1, owner, id, path, module_, source.enabled, if source.enabled then PENDING else DISABLED, 0xFFFF_FFFF, 0xFFFF_FFFF)
    && if Unsaved(s.preferences, owner, id) then source.enabled == enabled else SavedFlag(s.preferences, owner, id, source.enabled)
  }

  /**
   A source is created unless a text is empty or cut, the handles are used up, or its owner has one of that id.
   It goes before the first source that is saved later; an unsaved one is saved last, with its flag.
   */
  lemma {:induction false} CreateDecided(s: State, module_: Option<ModuleId>, owner: string, id: string, name: string, path: string, enabled: bool)
    ensures var t := Create(s, module_, owner, id, name, path, enabled);
            if !Named(id) || !Named(name) || !Named(path) || s.nextHandle == 0xFFFF_FFFF || exists other <- s.sources :: other.owner == owner && other.id == id
            then t == s
            else
              && Counts(s, t, true) && t.nextHandle == s.nextHandle + 1
              && t.preferences == s.preferences + (if Unsaved(s.preferences, owner, id) then [Preference(owner, id, enabled)] else [])
              && exists k :: 0 <= k <= |s.sources| && k < |t.sources|
                   && t.sources == s.sources[..k] + [t.sources[k]] + s.sources[k..]
                   && NewSource(s, t.sources[k], module_, owner, id, path, enabled)
                   && (forall j :: 0 <= j < k ==> Rank(t.preferences, s.sources[j]) <= Rank(t.preferences, t.sources[k]))
                   && (k < |s.sources| ==> Rank(t.preferences, t.sources[k]) < Rank(t.preferences, s.sources[k]))
  {
    NamedIsValid(id);
    NamedIsValid(name);
    NamedIsValid(path);
    if Creates(s, owner, id, name, path) {
      AddedIs(s, module_, owner, id, path, enabled);
      var (source, preferences) := Added(s, module_, owner, id, path, enabled);
      hide Added, RankIn, ValidText, Place, Unsaved, NewSource;
      var k := Place(s.sources, preferences, Rank(preferences, source));
      assert Create(s, module_, owner, id, name, path, enabled).sources[k] == source;
    }
  }

  lemma {:induction false} NamedIsValid(text: string)
    ensures Named(text) <==> ValidText(text)
  {}

  lemma {:induction false} AddedIs(s: State, module_: Option<ModuleId>, owner: string, id: string, path: string, enabled: bool)
    requires s.nextHandle != MAX_32
    ensures var (source, preferences) := Added(s, module_, owner, id, path, enabled);
            && NewSource(s, source, module_, owner, id, path, enabled)
            && preferences == s.preferences + (if Unsaved(s.preferences, owner, id) then [Preference(owner, id, enabled)] else [])
  {
    var rank := RankIn(s.preferences, owner, id);
    if rank < |s.preferences| {
      assert s.preferences[rank] in s.preferences;
      assert s.preferences[rank] == Preference(owner, id, s.preferences[rank].enabled);
    } else {
      forall p <- s.preferences ensures p.owner != owner || p.id != id {
        var k :| 0 <= k < |s.preferences| && s.preferences[k] == p;
      }
    }
    hide RankIn;
  }

  // ---------------------------------------------------------------- enabling and moving

  /** The source of this handle is at this place, and no earlier one has it. */
  ghost predicate At(s: State, handle: u32, k: nat)
  {
    k < |s.sources| && s.sources[k].handle == handle && forall j :: 0 <= j < k ==> s.sources[j].handle != handle
  }

  lemma {:induction false} IndexIs(s: State, handle: u32, k: nat)
    ensures At(s, handle, k) <==> k < |s.sources| && IndexOf(s.sources, handle) == k
    ensures IndexOf(s.sources, handle) == |s.sources| <==> forall source <- s.sources :: source.handle != handle
  {
    var r := IndexOf(s.sources, handle);
    if r < |s.sources| { assert s.sources[r] in s.sources; }
    hide IndexOf;
  }

  /** The place of a source's preference. */
  ghost predicate SavedAt(s: State, source: Source, p: nat)
  {
    && p < |s.preferences| && s.preferences[p].owner == source.owner && s.preferences[p].id == source.id
    && forall j :: 0 <= j < p ==> s.preferences[j].owner != source.owner || s.preferences[j].id != source.id
  }

  lemma {:induction false} SavedIs(s: State, source: Source, p: nat)
    ensures SavedAt(s, source, p) <==> p < |s.preferences| && Rank(s.preferences, source) == p
  {}

  /** A source that gets another flag gets the state that goes with it, and its preference the flag; else nothing happens. */
  lemma {:induction false} EnableDecided(s: State, handle: u32, enabled: bool, k: nat, p: nat)
    ensures (forall source <- s.sources :: source.handle != handle) ==> Enable(s, handle, enabled) == s
    ensures At(s, handle, k) && s.sources[k].enabled == enabled ==> Enable(s, handle, enabled) == s
    ensures At(s, handle, k) && s.sources[k].enabled != enabled && SavedAt(s, s.sources[k], p) ==>
              var t := Enable(s, handle, enabled);
              && Counts(s, t, true) && t.nextHandle == s.nextHandle
              && t.sources == s.sources[k := s.sources[k].(enabled := enabled, state := if enabled then PENDING else DISABLED)]
              && t.preferences == s.preferences[p := Preference(s.preferences[p].owner, s.preferences[p].id, enabled)]
  {
    IndexIs(s, handle, k);
    if k < |s.sources| { SavedIs(s, s.sources[k], p); }
    hide IndexOf, Rank, SavedAt, At;
  }

  /** A source that moves inside the list changes places with the one that is there, and so do their preferences; else nothing happens. */
  lemma {:induction false} MoveDecided(s: State, handle: u32, delta: int, k: nat, p: nat, q: nat)
    ensures (forall source <- s.sources :: source.handle != handle) ==> Move(s, handle, delta) == s
    ensures At(s, handle, k) && !(0 <= k + delta < |s.sources|) ==> Move(s, handle, delta) == s
    ensures At(s, handle, k) && 0 <= k + delta < |s.sources| && SavedAt(s, s.sources[k], p) && SavedAt(s, s.sources[k + delta], q) ==>
              var t := Move(s, handle, delta);
              && Counts(s, t, true) && t.nextHandle == s.nextHandle
              && t.sources == s.sources[k := s.sources[k + delta]][k + delta := s.sources[k]]
              && t.preferences == s.preferences[p := s.preferences[q]][q := s.preferences[p]]
  {
    IndexIs(s, handle, k);
    if k < |s.sources| {
      SavedIs(s, s.sources[k], p);
      if 0 <= k + delta < |s.sources| { SavedIs(s, s.sources[k + delta], q); }
    }
    hide IndexOf, Rank, SavedAt, At;
  }

  /** Reloading a source counts as a change and is none. */
  lemma {:induction false} ReloadDecided(s: State, handle: u32)
    ensures Reload(s, handle) ==
            if exists source <- s.sources :: source.handle == handle then s.(changes := s.changes + 1, dirty := true) else s
  {
    IndexIs(s, handle, 0);
    hide IndexOf;
  }

  // ---------------------------------------------------------------- erasing, listing, telling

  /** Places below `n`, in rising order, each once. */
  ghost predicate Rises(places: seq<nat>, n: nat)
  {
    (forall i :: 0 <= i < |places| ==> places[i] < n) && forall i, j :: 0 <= i < j < |places| ==> places[i] < places[j]
  }

  lemma {:induction false} RisesOn(places: seq<nat>, n: nat)
    requires Rises(places, n)
    ensures Rises(places, n + 1) && Rises(places + [n], n + 1) && n !in places
    ensures forall k :: k in places + [n] <==> k in places || k == n
  {}

  /** The sources at these places. */
  function SourcesAt(sources: seq<Source>, places: seq<nat>): seq<Source>
    requires forall i :: 0 <= i < |places| ==> places[i] < |sources|
  {
    seq(|places|, i requires 0 <= i < |places| => sources[places[i]])
  }

  lemma {:induction false} SourcesOn(sources: seq<Source>, places: seq<nat>, n: nat)
    requires Rises(places, n) && n == |sources| - 1
    ensures SourcesAt(sources[..n], places) == SourcesAt(sources, places)
    ensures SourcesAt(sources, places + [n]) == SourcesAt(sources, places) + [sources[n]]
  {}

  lemma {:induction false} KeepNext(sources: seq<Source>, gone: Condition, n: nat)
    requires n == |sources| - 1
    ensures Keep(sources, gone) == if Meets(sources[n], gone) then Keep(sources[..n], gone) else Keep(sources[..n], gone) + [sources[n]]
  {}

  /** Erasing keeps the sources that do not meet the condition, all of them, in their order. */
  lemma {:induction false} KeepDecided(sources: seq<Source>, gone: Condition) returns (places: seq<nat>)
    ensures Rises(places, |sources|) && Keep(sources, gone) == SourcesAt(sources, places)
    ensures forall k :: 0 <= k < |sources| ==> (k in places <==> !Meets(sources[k], gone))
  {
    places := [];
    if sources != [] {
      var n := |sources| - 1;
      var rest := KeepDecided(sources[..n], gone);
      RisesOn(rest, n);
      hide Meets, SourcesAt, Rises, Keep;
      SourcesOn(sources, rest, n);
      KeepNext(sources, gone, n);
      places := if Meets(sources[n], gone) then rest else rest + [n];
    }
  }

  /** Nothing happens when nothing is erased; otherwise it counts as one change. Handles and preferences stay. */
  lemma {:induction false} EraseDecided(s: State, gone: Condition)
    ensures var t := Erase(s, gone);
            if forall source <- s.sources :: !Meets(source, gone) then t == s
            else t == s.(sources := Keep(s.sources, gone), changes := s.changes + 1, dirty := true)
  {
    var places := KeepDecided(s.sources, gone);
    hide Meets;
    var kept := Keep(s.sources, gone);
    if source :| source in s.sources && Meets(source, gone) {
      var k :| 0 <= k < |s.sources| && s.sources[k] == source;
      assert |kept| != |s.sources|;
    } else {
      KeepAll(s.sources, gone);
    }
  }

  lemma {:induction false} KeptExactly(sources: seq<Source>, gone: Condition, source: Source)
    ensures source in Keep(sources, gone) <==> source in sources && !Meets(source, gone)
  {
    hide Meets;
    if sources != [] {
      var n := |sources| - 1;
      KeptExactly(sources[..n], gone, source);
      KeepNext(sources, gone, n);
      assert sources == sources[..n] + [sources[n]];
    }
  }

  /** `Dispatch` begins by dropping the sources of disabled modules; then there is nothing more to reload or to save. */
  lemma {:induction false} BeginDecided(s: State, disabled: set<ModuleId>)
    ensures var t := Begin(s, disabled);
            var gone := exists source <- s.sources :: source.module_.Some? && source.module_.value in disabled;
            && t == State(t.sources, s.preferences, s.nextHandle, s.changes + (if gone then 1 else 0), false, false)
            && (forall source :: source in t.sources <==> source in s.sources && !(source.module_.Some? && source.module_.value in disabled))
  {
    EraseDecided(s, ByModules(disabled));
    KeepAllOf(s, ByModules(disabled));
    hide Keep, Erase;
    forall source ensures source in Keep(s.sources, ByModules(disabled)) <==> source in s.sources && !Meets(source, ByModules(disabled)) {
      KeptExactly(s.sources, ByModules(disabled), source);
    }
  }

  lemma {:induction false} KeepAllOf(s: State, gone: Condition)
    ensures (forall source <- s.sources :: !Meets(source, gone)) ==> Keep(s.sources, gone) == s.sources
  {
    hide Meets;
    if forall source <- s.sources :: !Meets(source, gone) { KeepAll(s.sources, gone); }
  }

  /** Places below `n`, in falling order, each once. */
  ghost predicate Falls(places: seq<nat>, n: nat)
  {
    (forall i :: 0 <= i < |places| ==> places[i] < n) && forall i, j :: 0 <= i < j < |places| ==> places[i] > places[j]
  }

  lemma {:induction false} FallsOn(places: seq<nat>, n: nat)
    requires Falls(places, n)
    ensures Falls(places, n + 1) && Falls([n] + places, n + 1) && n !in places
    ensures forall k :: k in [n] + places <==> k in places || k == n
  {}

  /** The paths of the sources at these places. */
  function PathsAt(sources: seq<Source>, places: seq<nat>): seq<string>
    requires forall i :: 0 <= i < |places| ==> places[i] < |sources|
  {
    seq(|places|, i requires 0 <= i < |places| => sources[places[i]].path)
  }

  lemma {:induction false} PathsOn(sources: seq<Source>, places: seq<nat>, n: nat)
    requires Falls(places, n) && n < |sources|
    ensures PathsAt(sources, [n] + places) == [sources[n].path] + PathsAt(sources, places)
  {}

  lemma {:induction false} PathsNext(sources: seq<Source>, n: nat)
    requires n < |sources|
    ensures PathsDown(sources, n + 1) == (if sources[n].enabled then [sources[n].path] else []) + PathsDown(sources, n)
  {}

  /** The paths of the enabled sources below `n`, the last first, are those of these places. */
  ghost predicate PathsOf(sources: seq<Source>, n: nat, places: seq<nat>)
    requires n <= |sources|
  {
    && Falls(places, n) && PathsDown(sources, n) == PathsAt(sources, places)
    && forall k :: 0 <= k < n ==> (k in places <==> sources[k].enabled)
  }

  lemma {:induction false} PathsStep(sources: seq<Source>, n: nat, places: seq<nat>)
    requires n < |sources| && PathsOf(sources, n, places)
    ensures PathsOf(sources, n + 1, if sources[n].enabled then [n] + places else places)
  {
    PathsNext(sources, n);
    FallsOn(places, n);
    PathsOn(sources, places, n);
    hide PathsDown, PathsAt, Falls;
    assert [] + PathsDown(sources, n) == PathsDown(sources, n);
  }

  /** The host is given the paths of the enabled sources, the last first. */
  lemma {:induction false} PathsDecided(sources: seq<Source>, n: nat) returns (places: seq<nat>)
    requires n <= |sources|
    ensures PathsOf(sources, n, places)
  {
    if n == 0 {
      places := [];
    } else {
      var rest := PathsDecided(sources, n - 1);
      hide PathsOf;
      PathsStep(sources, n - 1, rest);
      places := if sources[n - 1].enabled then [n - 1] + rest else rest;
    }
  }

  /** The source's module has not been told of its state or of its place. */
  predicate Untold(sources: seq<Source>, state: nat, k: nat)
    requires k < |sources|
  {
    var now := if sources[k].enabled then state else DISABLED;
    sources[k].module_.Some? && (sources[k].notifiedState != now || sources[k].notifiedPriority != k)
  }

  /** There is an event for every source whose module is behind, in the order of the sources, and it says what is the case. */
  lemma {:induction false} EventsDecided(sources: seq<Source>, state: nat, from: nat) returns (places: seq<nat>)
    requires from <= |sources|
    ensures (forall i :: 0 <= i < |places| ==> from <= places[i]) && Rises(places, |sources|)
    ensures |EventsFrom(sources, state, from)| == |places|
    ensures forall i :: 0 <= i < |places| ==>
              var k := places[i];
              Untold(sources, state, k)
              && EventsFrom(sources, state, from)[i] ==
                 Event(sources[k].module_.value, sources[k].handle, if sources[k].enabled then state else DISABLED, sources[k].enabled, k)
    ensures forall k :: from <= k < |sources| && Untold(sources, state, k) ==> k in places
    decreases |sources| - from
  {
    places := [];
    if from < |sources| {
      var rest := EventsDecided(sources, state, from + 1);
      places := if Untold(sources, state, from) then [from] + rest else rest;
    }
  }

  /** The state in which event number `k` finds the sources, if all before it found them unchanged. */
  function MetAt(s: State, events: seq<Event>, others: Others, n: nat, k: nat): State
    requires k < |events|
    decreases k
  {
    var met := Run(s, others.before(n));
    if k == 0 then met
    else if others.muted(n) then MetAt(met, events[1..], others, n + 1, k - 1)
    else MetAt(Notify(met, events[0].handle, events[0].state, events[0].priority), events[1..], others, n + 1, k - 1)
  }

  /** The events whose modules are neither stopping nor disabled. */
  function Unmuted(events: seq<Event>, others: Others, n: nat): seq<Event>
  {
    if events == [] then [] else (if others.muted(n) then [] else [events[0]]) + Unmuted(events[1..], others, n + 1)
  }

  /** The loop over the events ends at the first that finds the sources changed; of those before, all that are not muted are delivered. */
  lemma {:induction false} TellDecided(s: State, applied: u64, events: seq<Event>, others: Others, n: nat) returns (stop: nat)
    ensures stop <= |events| && Tell(s, applied, events, others, n).1 == Unmuted(events[..stop], others, n)
    ensures forall k :: 0 <= k < stop ==> Revision(MetAt(s, events, others, n, k)) == applied
    ensures stop < |events| ==> Revision(MetAt(s, events, others, n, stop)) != applied
    decreases |events|
  {
    stop := 0;
    if events != [] && Revision(Run(s, others.before(n))) == applied {
      hide Run, Revision, Notify;
      var met := Run(s, others.before(n));
      var next := if others.muted(n) then met else Notify(met, events[0].handle, events[0].state, events[0].priority);
      var more := TellDecided(next, applied, events[1..], others, n + 1);
      stop := more + 1;
      assert events[..stop][1..] == events[1..][..more];
      forall k | 0 <= k < stop ensures Revision(MetAt(s, events, others, n, k)) == applied {
        if k > 0 { assert MetAt(s, events, others, n, k) == MetAt(next, events[1..], others, n + 1, k - 1); }
      }
    }
  }
}
