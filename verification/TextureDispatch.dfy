/**
 `Dispatch` of client/src/textures.cpp as a whole: three critical sections, between which other threads and
 the modules that are told may do anything to the sources.
 */
module TextureDispatch {
  import opened Machine
  import opened Textures

  /**
   What others do meanwhile: while the host is told, before the lock is taken for the `n`-th event, and
   whether that event's module is stopping or disabled by then.
   */
  datatype Others = Others(during: seq<Operation>, before: nat -> seq<Operation>, muted: nat -> bool)

  const NOBODY := Others([], n => [], n => false)

  /** The loop over the events: the state it leaves, and the events that are delivered. */
  function Tell(s: State, applied: u64, events: seq<Event>, others: Others, n: nat): (State, seq<Event>)
    decreases |events|
  {
    if events == [] then (s, [])
    else
      var met := Run(s, others.before(n));
      if Revision(met) != applied then (met, [])
      else if others.muted(n) then Tell(met, applied, events[1..], others, n + 1)
      else
        var rest := Tell(Notify(met, events[0].handle, events[0].state, events[0].priority), applied, events[1..], others, n + 1);
        (rest.0, [events[0]] + rest.1)
  }

  /** The state that `Dispatch` meets when the host has answered. */
  function Answered(s: State, disabled: set<ModuleId>, others: Others): State
  {
    Run(Begin(s, disabled), others.during)
  }

  function Pending(s: State, applied: u64, state: nat): seq<Event>
  {
    if Revision(s) == applied then EventsFrom(s.sources, state, 0) else []
  }

  /** The events that `Dispatch` lists. */
  function Listed(s: State, disabled: set<ModuleId>, state: nat, others: Others): seq<Event>
  {
    Pending(Answered(s, disabled, others), Revision(Begin(s, disabled)), state)
  }

  /** `Dispatch`: the state it leaves, and the events that are delivered. */
  function Dispatched(s: State, disabled: set<ModuleId>, state: nat, others: Others): (State, seq<Event>)
  {
    var applied := Revision(Begin(s, disabled));
    var met := Answered(s, disabled, others);
    Tell(Apply(met, applied, state), applied, Listed(s, disabled, state, others), others, 0)
  }

  /** How many operations of others come before the `n`-th event is told. */
  function Calls(others: Others, n: nat): nat
  {
    if n == 0 then 0 else Calls(others, n - 1) + |others.before(n - 1)|
  }

  lemma {:induction false} CallsRise(others: Others, m: nat, n: nat)
    requires m <= n
    ensures Calls(others, m) <= Calls(others, n)
  {
    if m < n { CallsRise(others, m, n - 1); }
  }

  lemma {:induction false} RunCounts(s: State, ops: seq<Operation>)
    ensures s.changes <= Run(s, ops).changes <= s.changes + |ops|
  {
    hide Do;
    if ops != [] {
      RunCounts(s, ops[..|ops| - 1]);
      DoCounts(Run(s, ops[..|ops| - 1]), ops[|ops| - 1]);
    }
  }

  lemma {:induction false} DoCounts(s: State, op: Operation)
    ensures s.changes <= Do(s, op).changes <= s.changes + 1
  {
    hide Rank, Place, Added, Keep, Swap, Registered;
  }

  lemma {:induction false} RunJoins(s: State, first: seq<Operation>, second: seq<Operation>)
    ensures Run(Run(s, first), second) == Run(s, first + second)
  {
    hide Do;
    if second == [] {
      assert first + second == first;
    } else {
      RunJoins(s, first, second[..|second| - 1]);
      assert (first + second)[..|first + second| - 1] == first + second[..|second| - 1];
    }
  }

  // ---------------------------------------------------------------- what Dispatch keeps

  lemma {:induction false} TellKeeps(s: State, applied: u64, events: seq<Event>, others: Others, n: nat)
    ensures Good(s) ==> Good(Tell(s, applied, events, others, n).0)
    ensures AllSaved(s) ==> AllSaved(Tell(s, applied, events, others, n).0)
    decreases |events|
  {
    hide Good, AllSaved, Run, Notify;
    if events != [] {
      var met := Run(s, others.before(n));
      if Good(s) { AlwaysOrdered(s, others.before(n)); }
      if AllSaved(s) { AlwaysSaved(s, others.before(n)); }
      if Revision(met) == applied {
        var noted := Notify(met, events[0].handle, events[0].state, events[0].priority);
        if Good(s) { NotifyKeeps(met, events[0].handle, events[0].state, events[0].priority); }
        if AllSaved(s) { DoSaves(met, DoNotify(events[0].handle, events[0].state, events[0].priority)); }
        TellKeeps(if others.muted(n) then met else noted, applied, events[1..], others, n + 1);
      }
    }
  }

  /** Whatever others do meanwhile, a `Dispatch` keeps the order, the flags and the handles. */
  lemma {:induction false} DispatchKeeps(s: State, disabled: set<ModuleId>, state: nat, others: Others)
    requires Good(s)
    ensures Good(Dispatched(s, disabled, state, others).0)
  {
    hide Good, Run, Tell;
    var applied := Revision(Begin(s, disabled));
    BeginKeeps(s, disabled);
    AlwaysOrdered(Begin(s, disabled), others.during);
    var met := Answered(s, disabled, others);
    ApplyKeeps(met, applied, state);
    TellKeeps(Apply(met, applied, state), applied, Pending(met, applied, state), others, 0);
  }

  // ---------------------------------------------------------------- what is delivered

  /** The last thing told of the source at this place is its state and place. */
  ghost predicate Settled(sources: seq<Source>, state: nat, i: nat)
    requires i < |sources|
  {
    sources[i].module_.Some? ==>
      sources[i].notifiedState == (if sources[i].enabled then state else DISABLED) && sources[i].notifiedPriority == i
  }

  /** There is nothing to tell exactly when every source is settled. */
  lemma {:induction false} NothingPending(sources: seq<Source>, state: nat, k: nat)
    requires k <= |sources|
    ensures EventsFrom(sources, state, k) == [] <==> forall i :: k <= i < |sources| ==> Settled(sources, state, i)
    decreases |sources| - k
  {
    if k < |sources| {
      NothingPending(sources, state, k + 1);
      assert (forall i :: k <= i < |sources| ==> Settled(sources, state, i)) <==>
             Settled(sources, state, k) && forall i :: k + 1 <= i < |sources| ==> Settled(sources, state, i);
    }
  }

  lemma {:induction false} EventsTail(sources: seq<Source>, other: seq<Source>, state: nat, k: nat)
    requires |sources| == |other| && k <= |sources| && forall i :: k <= i < |sources| ==> sources[i] == other[i]
    ensures EventsFrom(sources, state, k) == EventsFrom(other, state, k)
    decreases |sources| - k
  {
    if k < |sources| { EventsTail(sources, other, state, k + 1); }
  }

  ghost predicate OwnHandles(sources: seq<Source>)
  {
    forall i, j :: 0 <= i < j < |sources| ==> sources[i].handle != sources[j].handle
  }

  /** The sources differ in no more than what was told. */
  ghost predicate OnlyTold(was: seq<Source>, now: seq<Source>)
  {
    |now| == |was| && forall i :: 0 <= i < |was| ==>
      now[i] == was[i].(notifiedState := now[i].notifiedState, notifiedPriority := now[i].notifiedPriority)
  }

  /** The event for the source at place `k`, when there is one. */
  function EventAt(sources: seq<Source>, state: nat, k: nat): Event
    requires k < |sources| && sources[k].module_.Some?
  {
    Event(sources[k].module_.value, sources[k].handle, if sources[k].enabled then state else DISABLED, sources[k].enabled, k)
  }

  lemma {:induction false} EventsAt(sources: seq<Source>, state: nat, k: nat)
    requires k < |sources|
    ensures !Settled(sources, state, k) ==> sources[k].module_.Some?
    ensures EventsFrom(sources, state, k) ==
            if Settled(sources, state, k) then EventsFrom(sources, state, k + 1)
            else [EventAt(sources, state, k)] + EventsFrom(sources, state, k + 1)
  {}

  lemma {:induction false} TellNext(s: State, event: Event, events: seq<Event>, n: nat)
    ensures var rest := Tell(Notify(s, event.handle, event.state, event.priority), Revision(s), events, NOBODY, n + 1);
            Tell(s, Revision(s), [event] + events, NOBODY, n) == (rest.0, [event] + rest.1)
  {
    assert ([event] + events)[1..] == events && Run(s, []) == s;
    hide Notify, Run;
  }

  /** Telling one event settles its source and changes nothing else. */
  lemma {:induction false} NotedAt(s: State, state: nat, k: nat)
    requires k < |s.sources| && OwnHandles(s.sources) && s.sources[k].module_.Some?
    ensures var event := EventAt(s.sources, state, k);
            var t := Notify(s, event.handle, event.state, event.priority);
            && t == s.(sources := t.sources) && OnlyTold(s.sources, t.sources) && OwnHandles(t.sources)
            && (forall i :: 0 <= i < |s.sources| && i != k ==> t.sources[i] == s.sources[i])
            && Settled(t.sources, state, k)
  {
    OwnIndex(s.sources, k);
  }

  /** What the loop, left alone, makes of the sources from place `k` on. */
  ghost predicate Tells(s: State, state: nat, k: nat, r: (State, seq<Event>))
    requires k <= |s.sources|
  {
    && r.0 == s.(sources := r.0.sources) && OnlyTold(s.sources, r.0.sources)
    && (forall i :: 0 <= i < k ==> r.0.sources[i] == s.sources[i])
    && (forall i :: k <= i < |s.sources| ==> Settled(r.0.sources, state, i))
    && r.1 == EventsFrom(s.sources, state, k)
  }

  /** Left alone, the loop tells every pending event and settles every source from place `k` on. */
  lemma {:induction false} TellSettles(s: State, state: nat, k: nat, n: nat)
    requires k <= |s.sources| && OwnHandles(s.sources)
    ensures Tells(s, state, k, Tell(s, Revision(s), EventsFrom(s.sources, state, k), NOBODY, n))
    decreases |s.sources| - k
  {
    hide Tell, Notify, Revision, OwnHandles;
    if k == |s.sources| {
      TellNothing(s, n);
    } else {
      EventsAt(s.sources, state, k);
      hide EventsFrom;
      if Settled(s.sources, state, k) {
        TellSettles(s, state, k + 1, n);
      } else {
        var event := EventAt(s.sources, state, k);
        var noted := Notify(s, event.handle, event.state, event.priority);
        NotedAt(s, state, k);
        SameRevision(s, noted);
        TellNext(s, event, EventsFrom(s.sources, state, k + 1), n);
        EventsTail(s.sources, noted.sources, state, k + 1);
        TellSettles(noted, state, k + 1, n + 1);
      }
    }
  }

  lemma {:induction false} SameRevision(s: State, t: State)
    requires t == s.(sources := t.sources)
    ensures Revision(t) == Revision(s)
  {}

  lemma {:induction false} TellNothing(s: State, n: nat)
    ensures Tell(s, Revision(s), [], NOBODY, n) == (s, [])
  {}

  /** Left alone, a `Dispatch` delivers every pending event, and leaves nothing to tell. */
  lemma {:induction false} DispatchSettles(s: State, disabled: set<ModuleId>, state: nat)
    requires Good(s)
    ensures var (t, delivered) := Dispatched(s, disabled, state, NOBODY);
            && delivered == EventsFrom(Begin(s, disabled).sources, state, 0)
            && t == Begin(s, disabled).(sources := t.sources)
            && OnlyTold(WithState(Begin(s, disabled).sources, state), t.sources)
            && EventsFrom(t.sources, state, 0) == []
  {
    BeginKeeps(s, disabled);
    var begun := Begin(s, disabled);
    var applied := begun.(sources := WithState(begun.sources, state));
    assert Run(begun, []) == begun && Apply(begun, Revision(begun), state) == applied;
    EventsSame(begun.sources, state, 0);
    SameRevision(begun, applied);
    hide Begin, Ordered, Distinct, Tell, Run, EventsFrom, Revision;
    TellSettles(applied, state, 0, 0);
    var t := Dispatched(s, disabled, state, NOBODY).0;
    NothingPending(t.sources, state, 0);
  }

  /** A second `Dispatch` with the same answer, when nothing happened, changes nothing and tells nobody. */
  lemma {:induction false} DispatchRepeats(s: State, disabled: set<ModuleId>, state: nat)
    requires Good(s)
    ensures var t := Dispatched(s, disabled, state, NOBODY).0;
            Dispatched(t, disabled, state, NOBODY) == (t, [])
  {
    DispatchSettles(s, disabled, state);
    var t := Dispatched(s, disabled, state, NOBODY).0;
    hide Dispatched, EventsFrom, Good;
    BegunAgain(s, disabled, state, t);
    hide Begin, WithState, OnlyTold;
    assert Run(t, []) == t && Apply(t, Revision(t), state) == t;
    hide Run, Apply, Revision;
    assert Dispatched(t, disabled, state, NOBODY) == Tell(t, Revision(t), [], NOBODY, 0);
    TellNothing(t, 0);
  }

  /** Sources that stay have nothing left to drop and their states already. */
  lemma {:induction false} BegunAgain(s: State, disabled: set<ModuleId>, state: nat, t: State)
    requires t == Begin(s, disabled).(sources := t.sources)
    requires OnlyTold(WithState(Begin(s, disabled).sources, state), t.sources)
    ensures Begin(t, disabled) == t && WithState(t.sources, state) == t.sources
  {
    var begun := Begin(s, disabled);
    forall source <- t.sources ensures !Meets(source, ByModules(disabled)) {
      var i :| 0 <= i < |t.sources| && t.sources[i] == source;
      assert begun.sources[i] in begun.sources;
      assert !Meets(begun.sources[i], ByModules(disabled)) by { BegunKeeps(s, disabled, begun.sources[i]); }
      assert t.sources[i].module_ == begun.sources[i].module_;
    }
    hide Keep;
    KeepAll(t.sources, ByModules(disabled));
  }

  lemma {:induction false} BegunKeeps(s: State, disabled: set<ModuleId>, source: Source)
    requires source in Begin(s, disabled).sources
    ensures !Meets(source, ByModules(disabled))
  {
    assert source in Keep(s.sources, ByModules(disabled));
  }

  lemma {:induction false} OwnIndex(sources: seq<Source>, k: nat)
    requires k < |sources| && OwnHandles(sources)
    ensures IndexOf(sources, sources[k].handle) == k
  {}
}
