/** `Texture_Manager` of client/src/textures.cpp: each method, under the lock, does what its function says. */
module TextureManager {
  import opened Machine
  import opened Options
  import opened Textures
  import opened TextureDispatch

  class Manager {
    var sources: seq<Source>
    var preferences: seq<Preference>
    var nextHandle: u32
    var revision: u64
    var dirty: bool
    var savePending: bool
    ghost var changes: nat

    ghost function Now(): State
      reads this
    {
      State(sources, preferences, nextHandle, changes, dirty, savePending)
    }

    ghost predicate Counted()
      reads this`revision, this`changes
    {
      revision == Count64(changes)
    }

    ghost predicate Valid()
      reads this
    {
      Counted() && AllSaved(Now())
    }

    constructor (saved: seq<Preference>)
      ensures Valid() && Now() == State([], saved, 0, 0, false, false)
    {
      sources, preferences, nextHandle, revision, dirty, savePending, changes := [], saved, 0, 0, false, false, 0;
    }

    method RankOf(owner: string, id: string) returns (rank: nat)
      ensures rank == RankIn(preferences, owner, id)
    {
      rank := 0;
      while rank < |preferences| && !(preferences[rank].owner == owner && preferences[rank].id == id)
        invariant rank <= |preferences| && rank <= RankIn(preferences, owner, id)
      {
        rank := rank + 1;
      }
    }

    method Find(handle: u32) returns (index: nat)
      ensures index == IndexOf(sources, handle)
    {
      index := 0;
      while index < |sources| && sources[index].handle != handle
        invariant index <= |sources| && index <= IndexOf(sources, handle)
      {
        index := index + 1;
      }
    }

    lemma {:induction false} CountedHere()
      requires Valid()
      ensures Revision(Now()) == revision
    {}

    method Bump()
      modifies this`revision, this`dirty, this`changes
      requires Counted()
      ensures Counted() && changes == old(changes) + 1 && dirty
    {
      NextModulo(changes);
      hide Count64;
      revision := (revision + 1) % TWO_64;
      changes := changes + 1;
      dirty := true;
    }

    method Create(module_: Option<ModuleId>, owner: string, id: string, name: string, path: string, enabled: bool) returns (handle: u32)
      requires Valid()
      modifies this
      ensures Valid() && Now() == Textures.Create(old(Now()), module_, owner, id, name, path, enabled)
      ensures handle == if Creates(old(Now()), owner, id, name, path) then nextHandle else 0
    {
      if !ValidText(id) || !ValidText(name) || !ValidText(path) { return 0; }
      if nextHandle == MAX_32 { return 0; }
      var registered := IsRegistered(owner, id);
      if registered { return 0; }
      hide RankIn, Registered, ValidText, Place, Textures.Create, Count64, AllSaved;
      AddSource(module_, owner, id, path, enabled);
      CreateIs(old(Now()), module_, owner, id, name, path, enabled);
      DoSaves(old(Now()), DoCreate(module_, owner, id, name, path, enabled));
      return nextHandle;
    }

    method IsRegistered(owner: string, id: string) returns (registered: bool)
      ensures registered == Registered(sources, owner, id)
    {
      for i := 0 to |sources|
        invariant forall k :: 0 <= k < i ==> !(sources[k].owner == owner && sources[k].id == id)
      {
        if sources[i].owner == owner && sources[i].id == id {
          assert sources[i] in sources;
          return true;
        }
      }
      return false;
    }

    method AddSource(module_: Option<ModuleId>, owner: string, id: string, path: string, enabled: bool)
      requires Counted() && nextHandle != MAX_32
      modifies this
      ensures Counted() && Now() == WithSource(old(Now()), Added(old(Now()), module_, owner, id, path, enabled))
    {
      var rank := RankOf(owner, id);
      ghost var added := Added(Now(), module_, owner, id, path, enabled);
      hide RankIn, Place, Count64;
      if rank == |preferences| { preferences := preferences + [Preference(owner, id, enabled)]; }
      nextHandle := nextHandle + 1;
      var on := preferences[rank].enabled;
      var source := Source(nextHandle, owner, id, path, module_, on, if on then PENDING else DISABLED, UNNOTIFIED, UNNOTIFIED);
      assert (source, preferences) == added;
      hide Added;
      Put(source, rank);
    }

    method Put(source: Source, rank: nat)
      requires Counted()
      modifies this`sources, this`revision, this`dirty, this`changes, this`savePending
      ensures Counted()
      ensures var place := Place(old(sources), preferences, rank);
              Now() == Changed(old(Now()).(sources := old(sources)[..place] + [source] + old(sources)[place..], savePending := true))
    {
      hide RankIn, Count64;
      var place := PlaceFor(rank);
      hide Place;
      sources := sources[..place] + [source] + sources[place..];
      Bump();
      savePending := true;
    }

    method PlaceFor(rank: nat) returns (place: nat)
      ensures place == Place(sources, preferences, rank)
    {
      place := 0;
      while place < |sources|
        invariant place <= |sources| && place <= Place(sources, preferences, rank)
      {
        var other := RankOf(sources[place].owner, sources[place].id);
        if other > rank { return; }
        place := place + 1;
      }
    }

    method KeepOthers(gone: Condition) returns (kept: seq<Source>)
      ensures kept == Keep(sources, gone)
    {
      kept := [];
      hide Keep, Meets;
      KeepAll([], gone);
      ghost var all := sources;
      assert all[..0] == [];
      for i := 0 to |sources|
        invariant kept == Keep(all[..i], gone)
      {
        KeepNext(all[..i], all[i], gone);
        assert all[..i + 1] == all[..i] + [all[i]];
        if !Meets(sources[i], gone) { kept := kept + [sources[i]]; }
      }
      assert all[..|all|] == all;
    }

    method Erase(gone: Condition)
      requires Valid()
      modifies this`sources, this`revision, this`dirty, this`changes
      ensures Valid() && Now() == Textures.Erase(old(Now()), gone)
    {
      hide Count64, AllSaved;
      EraseSaves(Now(), gone);
      var kept := KeepOthers(gone);
      hide Keep;
      if |kept| != |sources| {
        sources := kept;
        Bump();
      }
    }

    method Destroy(handle: u32)
      requires Valid()
      modifies this`sources, this`revision, this`dirty, this`changes
      ensures Valid() && Now() == Textures.Destroy(old(Now()), handle)
    {
      Erase(ByHandle(handle));
    }

    method Release(module_: ModuleId)
      requires Valid()
      modifies this`sources, this`revision, this`dirty, this`changes
      ensures Valid() && Now() == Textures.Release(old(Now()), module_)
    {
      Erase(ByModule(module_));
    }

    method Enable(handle: u32, enabled: bool) returns (found: bool)
      requires Valid()
      modifies this
      ensures Valid() && Now() == Textures.Enable(old(Now()), handle, enabled)
      ensures found <==> IndexOf(old(sources), handle) < |old(sources)|
    {
      var index := Find(handle);
      if index == |sources| { return false; }
      assert Rank(preferences, sources[index]) < |preferences|;
      EnableSaves(Now(), handle, enabled);
      EnableIs(Now(), handle, enabled);
      hide AllSaved, RankIn, IndexOf, Count64, Textures.Enable;
      if sources[index].enabled != enabled { Flip(index, enabled); }
      return true;
    }

    /** A source and its preference get the flag. */
    method Flip(index: nat, enabled: bool)
      requires Counted() && index < |sources| && Rank(preferences, sources[index]) < |preferences|
      modifies this
      ensures Counted() && Now() == Flipped(old(Now()), index, enabled)
    {
      hide RankIn, Count64;
      var rank := RankOf(sources[index].owner, sources[index].id);
      sources := sources[index := sources[index].(enabled := enabled, state := if enabled then PENDING else DISABLED)];
      preferences := preferences[rank := preferences[rank].(enabled := enabled)];
      Bump();
      savePending := true;
    }

    method Move(handle: u32, delta: int) returns (ok: bool)
      requires Valid()
      modifies this
      ensures Valid() && Now() == Textures.Move(old(Now()), handle, delta)
      ensures ok == Moves(old(Now()), handle, delta)
    {
      var index := Find(handle);
      if index == |sources| { return false; }
      var destination := index + delta;
      if destination < 0 || destination >= |sources| { return false; }
      assert Rank(preferences, sources[index]) < |preferences| && Rank(preferences, sources[destination]) < |preferences|;
      hide AllSaved, RankIn, IndexOf, Count64, Textures.Move, Exchanged;
      MoveSaves(Now(), handle, delta);
      MoveIs(Now(), handle, delta);
      Exchange(index, destination);
      return true;
    }

    /** Two sources and their preferences change places. */
    method Exchange(index: nat, destination: nat)
      requires Counted() && index < |sources| && destination < |sources|
      requires Rank(preferences, sources[index]) < |preferences| && Rank(preferences, sources[destination]) < |preferences|
      modifies this
      ensures Counted() && Now() == Exchanged(old(Now()), index, destination)
    {
      hide RankIn, Count64;
      var p := RankOf(sources[index].owner, sources[index].id);
      var q := RankOf(sources[destination].owner, sources[destination].id);
      preferences := Swap(preferences, p, q);
      sources := Swap(sources, index, destination);
      hide Swap;
      Bump();
      savePending := true;
    }

    method Reload(handle: u32) returns (found: bool)
      requires Valid()
      modifies this`revision, this`dirty, this`changes
      ensures Valid() && Now() == Textures.Reload(old(Now()), handle)
      ensures found <==> IndexOf(sources, handle) < |sources|
    {
      var index := Find(handle);
      if index == |sources| { return false; }
      DoSaves(Now(), DoReload(handle));
      hide AllSaved, IndexOf, Count64;
      Bump();
      return true;
    }

    // -------------------------------------------------------------- Dispatch, one critical section at a time

    /** Sources of disabled modules go; the enabled ones' paths are listed from the last to the first. */
    method BeginDispatch(disabled: set<ModuleId>) returns (paths: seq<string>, applied: u64, reload: bool, save: bool)
      requires Valid()
      modifies this
      ensures Valid() && Now() == Begin(old(Now()), disabled) && applied == revision
      ensures paths == PathsDown(sources, |sources|)
      ensures reload == Textures.Erase(old(Now()), ByModules(disabled)).dirty && save == old(savePending)
    {
      BeginSaves(Now(), disabled);
      BeginIs(Now(), disabled);
      hide RankIn, Keep, Meets, PathsDown, AllSaved, Textures.Erase, Begin, Count64;
      Erase(ByModules(disabled));
      paths := ListPaths();
      applied, reload, save := TakeFlags();
    }

    method TakeFlags() returns (applied: u64, reload: bool, save: bool)
      modifies this`dirty, this`savePending
      ensures Now() == old(Now()).(dirty := false, savePending := false)
      ensures applied == revision && reload == old(dirty) && save == old(savePending)
    {
      applied, reload, save := revision, dirty, savePending;
      dirty, savePending := false, false;
    }

    method ListPaths() returns (paths: seq<string>)
      ensures paths == PathsDown(sources, |sources|)
    {
      paths := [];
      var index := |sources|;
      while index > 0
        invariant 0 <= index <= |sources| && PathsDown(sources, |sources|) == paths + PathsDown(sources, index)
      {
        index := index - 1;
        if sources[index].enabled { paths := paths + [sources[index].path]; }
      }
    }

    /** The state the host reports, unless the sources have changed since. */
    method ApplyState(applied: u64, state: nat) returns (events: seq<Event>)
      requires Valid()
      modifies this`sources
      ensures Valid() && Now() == Apply(old(Now()), applied, state)
      ensures events == Pending(old(Now()), applied, state)
    {
      events := [];
      DoSaves(Now(), DoApply(applied, state));
      hide AllSaved, Count64, EventsFrom;
      if revision != applied { return; }
      events := SetStates(state);
    }

    method SetStates(state: nat) returns (events: seq<Event>)
      modifies this`sources
      ensures sources == WithState(old(sources), state) && events == EventsFrom(old(sources), state, 0)
    {
      events := [];
      ghost var was := sources;
      hide EventsFrom, WithState;
      for index := 0 to |sources|
        invariant |sources| == |was| && EventsFrom(was, state, 0) == events + EventsFrom(was, state, index)
        invariant sources == WithState(was, state)[..index] + was[index..]
      {
        var source := sources[index];
        var now := if source.enabled then state else DISABLED;
        assert source == was[index];
        var told: seq<Event> := [];
        if (source.notifiedState != now || source.notifiedPriority != index) && source.module_.Some? {
          told := [Event(source.module_.value, source.handle, now, source.enabled, index)];
        }
        EventsTurn(was, state, index, events, told);
        events := events + told;
        UpdateNext(WithState(was, state), was, index);
        sources := sources[index := source.(state := now)];
      }
      EventsDone(was, state);
      assert sources == WithState(was, state);
    }

    /**
     Note that a module is told of an event. `since` is the state the events were listed in and `ops` is all
     that happened since; the source is there to be noted whenever the revision still matches.
     */
    method NoteEvent(applied: u64, event: Event, muted: bool, ghost since: State, ghost state: nat, ghost ops: seq<Operation>)
        returns (go: bool, deliver: bool)
      requires Valid() && Now() == Run(since, ops) && applied == Revision(since)
      requires event in EventsFrom(since.sources, state, 0) && changes - since.changes < TWO_64
      modifies this`sources
      ensures Valid() && go == (revision == applied) && deliver == (go && !muted)
      ensures Now() == if deliver then Notify(old(Now()), event.handle, event.state, event.priority) else old(Now())
    {
      if revision != applied { return false, false; }
      if muted { return true, false; }
      UnchangedRevisionFinds(since, state, ops, event);
      DoSaves(Now(), DoNotify(event.handle, event.state, event.priority));
      hide Run, EventsFrom, AllSaved;
      var index := Find(event.handle);
      sources := sources[index := sources[index].(notifiedState := event.state, notifiedPriority := event.priority)];
      return true, true;
    }

    // -------------------------------------------------------------- Dispatch as a whole

    /** What another thread or a module does. */
    method Perform(op: Operation)
      requires Valid()
      modifies this
      ensures Valid() && Now() == Do(old(Now()), op)
    {
      hide Counted, AllSaved, IndexOf, Textures.Create, Textures.Erase, Textures.Enable, Textures.Move;
      match op {
        case DoCreate(module_, owner, id, name, path, enabled) =>
          var _ := Create(module_, owner, id, name, path, enabled);
        case DoDestroy(handle) => Destroy(handle);
        case DoRelease(module_) => Release(module_);
        case DoEnable(handle, on) =>
          var _ := Enable(handle, on);
        case DoMove(handle, delta) =>
          var _ := Move(handle, delta);
        case DoReload(handle) =>
          var _ := Reload(handle);
        case DoBegin(disabled) =>
          var _, _, _, _ := BeginDispatch(disabled);
        case DoApply(applied, state) =>
          var _ := ApplyState(applied, state);
        case DoNotify(handle, state, priority) => Note(handle, state, priority);
      }
    }

    method Note(handle: u32, state: nat, priority: nat)
      requires Valid()
      modifies this`sources
      ensures Valid() && Now() == Notify(old(Now()), handle, state, priority)
    {
      DoSaves(Now(), DoNotify(handle, state, priority));
      hide AllSaved, IndexOf;
      var index := Find(handle);
      if index < |sources| { sources := sources[index := sources[index].(notifiedState := state, notifiedPriority := priority)]; }
    }

    method PerformAll(ops: seq<Operation>)
      requires Valid()
      modifies this
      ensures Valid() && Now() == Run(old(Now()), ops)
    {
      hide Counted, AllSaved, Do;
      for i := 0 to |ops|
        invariant Valid() && Now() == Run(old(Now()), ops[..i])
      {
        assert ops[..i + 1][..i] == ops[..i];
        Perform(ops[i]);
      }
      assert ops[..|ops|] == ops;
    }

    /** One turn of the loop over the events; `ops` is all that happened since they were listed. */
    method TellOne(applied: u64, events: seq<Event>, k: nat, state: nat, others: Others, ghost since: State, ghost ops: seq<Operation>)
        returns (go: bool, told: seq<Event>, ghost done: seq<Operation>)
      requires Valid() && k < |events| && events == EventsFrom(since.sources, state, 0) && applied == Revision(since)
      requires Now() == Run(since, ops) && changes - since.changes <= Calls(others, k) && Calls(others, k + 1) < TWO_64
      modifies this
      ensures Valid() && Now() == Run(since, done) && changes - since.changes <= Calls(others, k + 1)
      ensures TurnTells(old(Now()), applied, events, others, k, go, told, Now())
    {
      told := [];
      ghost var was := Now();
      hide AllSaved, Run, EventsFrom, Notify, Tell;
      PerformAll(others.before(k));
      CountedHere();
      ghost var met := Now();
      RunCounts(was, others.before(k));
      RunJoins(since, ops, others.before(k));
      done := ops + others.before(k);
      hide Count64;
      go, told := NoteOne(applied, events[k], others.muted(k), since, state, done);
      TellTurn(was, met, applied, events, others, k);
      if told != [] {
        RunNotes(since, done, DoNotify(events[k].handle, events[k].state, events[k].priority));
        done := done + [DoNotify(events[k].handle, events[k].state, events[k].priority)];
      } else {
        assert [] + Tell(met, applied, events[k + 1..], others, k + 1).1 == Tell(met, applied, events[k + 1..], others, k + 1).1;
      }
    }

    method NoteOne(applied: u64, event: Event, muted: bool, ghost since: State, ghost state: nat, ghost ops: seq<Operation>)
        returns (go: bool, told: seq<Event>)
      requires Valid() && Now() == Run(since, ops) && applied == Revision(since)
      requires event in EventsFrom(since.sources, state, 0) && changes - since.changes < TWO_64
      modifies this`sources
      ensures Valid() && go == (revision == applied) && told == if go && !muted then [event] else []
      ensures Now() == if told != [] then Notify(old(Now()), event.handle, event.state, event.priority) else old(Now())
    {
      var deliver;
      go, deliver := NoteEvent(applied, event, muted, since, state, ops);
      told := if deliver then [event] else [];
    }

    /** How far the loop over the events is: `delivered` before the `k`-th, with `ops` done since they were listed. */
    ghost predicate Telling(since: State, ops: seq<Operation>, applied: u64, events: seq<Event>, state: nat, others: Others, k: nat,
                            delivered: seq<Event>)
      reads this
    {
      && Valid() && k <= |events| && (k < |events| ==> events == EventsFrom(since.sources, state, 0) && applied == Revision(since))
      && Now() == Run(since, ops) && changes - since.changes <= Calls(others, k)
      && TellsRest(since, applied, events, others, k, Now(), delivered)
    }

    method TellMore(applied: u64, events: seq<Event>, k: nat, state: nat, others: Others, delivered: seq<Event>, ghost since: State,
                    ghost ops: seq<Operation>)
        returns (go: bool, more: seq<Event>, ghost done: seq<Operation>)
      requires k < |events| && Telling(since, ops, applied, events, state, others, k, delivered) && Calls(others, k + 1) < TWO_64
      modifies this
      ensures go ==> Telling(since, done, applied, events, state, others, k + 1, more)
      ensures !go ==> Valid() && Tell(since, applied, events, others, 0) == (Now(), more)
    {
      hide Counted, AllSaved, Run, EventsFrom, Tell, Calls, TellsRest, TurnTells, Count64;
      ghost var was := Now();
      var told;
      go, told, done := TellOne(applied, events, k, state, others, since, ops);
      TellsMore(since, applied, events, others, k, was, delivered, told, Now(), go);
      more := if go then delivered + told else delivered;
    }

    /** The loop over the events. */
    method TellAll(applied: u64, events: seq<Event>, state: nat, others: Others) returns (delivered: seq<Event>)
      requires Valid() && Calls(others, |events|) < TWO_64
      requires events != [] ==> revision == applied && events == EventsFrom(sources, state, 0)
      modifies this
      ensures Valid() && (Now(), delivered) == Tell(old(Now()), applied, events, others, 0)
    {
      delivered := [];
      ghost var since := Now();
      ghost var ops: seq<Operation> := [];
      TellsNothingYet(since, applied, events, state, others);
      hide *;
      for k := 0 to |events|
        invariant Telling(since, ops, applied, events, state, others, k, delivered)
      {
        var go;
        CallsRise(others, k + 1, |events|);
        go, delivered, ops := TellMore(applied, events, k, state, others, delivered, since, ops);
        if !go { return; }
      }
      TellsAllOf(since, ops, applied, events, state, others, delivered);
    }

    lemma {:induction false} TellsNothingYet(since: State, applied: u64, events: seq<Event>, state: nat, others: Others)
      requires Valid() && since == Now() && (events != [] ==> revision == applied && events == EventsFrom(sources, state, 0))
      ensures Telling(since, [], applied, events, state, others, 0, [])
    {
      CountedHere();
      hide Counted, AllSaved, EventsFrom, Tell, Count64;
      NothingYet(since, others);
      TellsFirst(since, applied, events, others);
    }

    lemma {:induction false} TellsAllOf(since: State, ops: seq<Operation>, applied: u64, events: seq<Event>, state: nat, others: Others,
                                        delivered: seq<Event>)
      requires Telling(since, ops, applied, events, state, others, |events|, delivered)
      ensures Valid() && Tell(since, applied, events, others, 0) == (Now(), delivered)
    {
      hide Counted, AllSaved, EventsFrom, Tell, Run, Calls;
      TellsLast(since, applied, events, others, Now(), delivered);
    }

    /**
     `Dispatch`: `state` is the host's answer, `others` all that happens while the lock is free. Whenever a
     module is told of a source, that source is there, unless others did 2^64 things while the events were told.
     */
    method Dispatch(disabled: set<ModuleId>, state: nat, others: Others)
        returns (paths: seq<string>, reload: bool, save: bool, delivered: seq<Event>)
      requires Valid() && Calls(others, |Listed(Now(), disabled, state, others)|) < TWO_64
      modifies this
      ensures Valid() && (Now(), delivered) == Dispatched(old(Now()), disabled, state, others)
      ensures var begun := Begin(old(Now()), disabled); paths == PathsDown(begun.sources, |begun.sources|)
      ensures reload == Textures.Erase(old(Now()), ByModules(disabled)).dirty && save == old(savePending)
    {
      hide AllSaved, Run, Begin, Tell, Textures.Erase;
      var applied;
      paths, applied, reload, save := BeginDispatch(disabled);
      CountedHere();
      PerformAll(others.during);
      CountedHere();
      ghost var met := Now();
      assert met == Answered(old(Now()), disabled, others);
      var events := ApplyState(applied, state);
      EventsSame(met.sources, state, 0);
      CountedHere();
      hide EventsFrom, Revision;
      delivered := TellAll(applied, events, state, others);
    }
  }

  /** What is delivered so far, and then what the loop does from here on, is what it does in all. */
  ghost predicate TellsRest(since: State, applied: u64, events: seq<Event>, others: Others, k: nat, now: State, delivered: seq<Event>)
    requires k <= |events|
  {
    var rest := Tell(now, applied, events[k..], others, k);
    Tell(since, applied, events, others, 0) == (rest.0, delivered + rest.1)
  }

  /** What one turn tells, and then what the loop does after it, is what it does from this turn on. */
  ghost predicate TurnTells(was: State, applied: u64, events: seq<Event>, others: Others, k: nat, go: bool, told: seq<Event>, now: State)
    requires k < |events|
  {
    Tell(was, applied, events[k..], others, k) ==
    if !go then (now, [])
    else
      var rest := Tell(now, applied, events[k + 1..], others, k + 1);
      (rest.0, told + rest.1)
  }

  lemma {:induction false} TellsMore(since: State, applied: u64, events: seq<Event>, others: Others, k: nat,
                                     was: State, delivered: seq<Event>, told: seq<Event>, now: State, go: bool)
    requires k < |events| && TellsRest(since, applied, events, others, k, was, delivered)
    requires TurnTells(was, applied, events, others, k, go, told, now)
    ensures go ==> TellsRest(since, applied, events, others, k + 1, now, delivered + told)
    ensures !go ==> Tell(since, applied, events, others, 0) == (now, delivered)
  {
    hide Tell;
    var rest := Tell(now, applied, events[k + 1..], others, k + 1);
    assert delivered + (told + rest.1) == (delivered + told) + rest.1 && delivered + [] == delivered;
  }

  lemma {:induction false} NothingYet(s: State, others: Others)
    ensures Run(s, []) == s && Calls(others, 0) == 0
  {}

  lemma {:induction false} TellsFirst(since: State, applied: u64, events: seq<Event>, others: Others)
    ensures TellsRest(since, applied, events, others, 0, since, [])
  {
    assert events[0..] == events;
    hide Tell;
    assert [] + Tell(since, applied, events, others, 0).1 == Tell(since, applied, events, others, 0).1;
  }

  lemma {:induction false} TellsLast(since: State, applied: u64, events: seq<Event>, others: Others, now: State, delivered: seq<Event>)
    requires TellsRest(since, applied, events, others, |events|, now, delivered)
    ensures Tell(since, applied, events, others, 0) == (now, delivered)
  {
    assert events[|events|..] == [] && Tell(now, applied, [], others, |events|) == (now, []);
    hide Tell;
    assert delivered + [] == delivered;
  }

  /** One turn of the loop over the events. */
  lemma {:induction false} TellTurn(was: State, met: State, applied: u64, events: seq<Event>, others: Others, k: nat)
    requires k < |events| && met == Run(was, others.before(k))
    ensures var now := Tell(was, applied, events[k..], others, k);
            if Revision(met) != applied then now == (met, [])
            else if others.muted(k) then now == Tell(met, applied, events[k + 1..], others, k + 1)
            else
              var rest := Tell(Notify(met, events[k].handle, events[k].state, events[k].priority), applied, events[k + 1..], others, k + 1);
              now == (rest.0, [events[k]] + rest.1)
  {
    assert events[k..][1..] == events[k + 1..] && events[k..][0] == events[k];
    hide Run, Notify;
  }

  lemma {:induction false} RunNotes(s: State, ops: seq<Operation>, op: Operation)
    ensures Run(s, ops + [op]) == Do(Run(s, ops), op)
  {
    assert (ops + [op])[..|ops|] == ops;
    hide Do;
  }

  /** The source at `index` and its preference get the flag. */
  function Flipped(s: State, index: nat, enabled: bool): State
    requires index < |s.sources| && Rank(s.preferences, s.sources[index]) < |s.preferences|
  {
    var rank := Rank(s.preferences, s.sources[index]);
    Changed(s.(sources := s.sources[index := s.sources[index].(enabled := enabled, state := if enabled then PENDING else DISABLED)],
               preferences := s.preferences[rank := s.preferences[rank].(enabled := enabled)], savePending := true))
  }

  lemma {:induction false} BeginIs(s: State, disabled: set<ModuleId>)
    ensures Begin(s, disabled) == Textures.Erase(s, ByModules(disabled)).(dirty := false, savePending := false)
  {}

  lemma {:induction false} EnableIs(s: State, handle: u32, enabled: bool)
    requires IndexOf(s.sources, handle) < |s.sources| && Rank(s.preferences, s.sources[IndexOf(s.sources, handle)]) < |s.preferences|
    ensures var k := IndexOf(s.sources, handle);
            Textures.Enable(s, handle, enabled) == if s.sources[k].enabled == enabled then s else Flipped(s, k, enabled)
  {
    hide RankIn, IndexOf;
  }

  /** A new source is put in its place. */
  function WithSource(s: State, added: (Source, seq<Preference>)): State
    requires s.nextHandle != MAX_32
  {
    var place := Place(s.sources, added.1, Rank(added.1, added.0));
    Changed(s.(sources := s.sources[..place] + [added.0] + s.sources[place..], preferences := added.1,
               nextHandle := s.nextHandle + 1, savePending := true))
  }

  lemma {:induction false} CreateIs(s: State, module_: Option<ModuleId>, owner: string, id: string, name: string, path: string, enabled: bool)
    requires Creates(s, owner, id, name, path)
    ensures Textures.Create(s, module_, owner, id, name, path, enabled) == WithSource(s, Added(s, module_, owner, id, path, enabled))
  {}

  function PathsDown(sources: seq<Source>, n: nat): seq<string>
    requires n <= |sources|
  {
    if n == 0 then []
    else (if sources[n - 1].enabled then [sources[n - 1].path] else []) + PathsDown(sources, n - 1)
  }

  lemma {:induction false} UpdateNext<T>(target: seq<T>, was: seq<T>, i: nat)
    requires |target| == |was| && i < |was|
    ensures (target[..i] + was[i..])[i := target[i]] == target[..i + 1] + was[i + 1..]
  {}

  lemma {:induction false} EventsNext(sources: seq<Source>, state: nat, k: nat)
    requires k < |sources|
    ensures var source := sources[k];
            var now := if source.enabled then state else DISABLED;
            EventsFrom(sources, state, k) ==
            (if (source.notifiedState != now || source.notifiedPriority != k) && source.module_.Some?
             then [Event(source.module_.value, source.handle, now, source.enabled, k)] else []) + EventsFrom(sources, state, k + 1)
  {}

  lemma {:induction false} EventsTurn(sources: seq<Source>, state: nat, k: nat, events: seq<Event>, told: seq<Event>)
    requires k < |sources|
    requires var source := sources[k];
             var now := if source.enabled then state else DISABLED;
             told == if (source.notifiedState != now || source.notifiedPriority != k) && source.module_.Some?
                     then [Event(source.module_.value, source.handle, now, source.enabled, k)] else []
    ensures events + EventsFrom(sources, state, k) == (events + told) + EventsFrom(sources, state, k + 1)
  {
    EventsNext(sources, state, k);
    hide EventsFrom;
    assert events + (told + EventsFrom(sources, state, k + 1)) == (events + told) + EventsFrom(sources, state, k + 1);
  }

  lemma {:induction false} EventsDone(sources: seq<Source>, state: nat)
    ensures EventsFrom(sources, state, |sources|) == []
  {}

  lemma {:induction false} NextModulo(n: nat)
    ensures (Count64(n) + 1) % TWO_64 == Count64(n + 1)
  {}
}
