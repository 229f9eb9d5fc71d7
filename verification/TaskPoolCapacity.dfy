/**
 What the worker pool of client/src/tasks.cpp promises about service: a waiting job never waits for a
 context while a worker is free of its owner, and when a submission is accepted.
 */
module TaskPoolCapacity {
  import opened Machine
  import opened Options
  import opened TaskPool

  // ---------------------------------------------------------------- busy contexts

  function Busy(contexts: seq<Context>): (n: nat)
    ensures n <= |contexts|
  {
    if contexts == [] then 0
    else Busy(contexts[..|contexts| - 1]) + if contexts[|contexts| - 1].busy then 1 else 0
  }

  lemma {:induction false} BusyConcat(left: seq<Context>, right: seq<Context>)
    ensures Busy(left + right) == Busy(left) + Busy(right)
  {
    if right == [] {
      assert left + right == left;
    } else {
      assert (left + right)[..|left + right| - 1] == left + right[..|right| - 1];
      BusyConcat(left, right[..|right| - 1]);
    }
  }

  lemma {:induction false} BusyOne(c: Context)
    ensures Busy([c]) == if c.busy then 1 else 0
  {
    assert Busy([c][..0]) == 0;
  }

  lemma {:induction false} BusyMiddle(left: seq<Context>, c: Context, right: seq<Context>)
    ensures Busy(left + [c] + right) == Busy(left) + (if c.busy then 1 else 0) + Busy(right)
    ensures Busy(left + right) == Busy(left) + Busy(right)
  {
    BusyOne(c);
    hide Busy;
    BusyConcat(left + [c], right);
    BusyConcat(left, [c]);
    BusyConcat(left, right);
  }

  lemma {:induction false} BusyChange(contexts: seq<Context>, c: nat, to: Context)
    requires c < |contexts|
    ensures Busy(contexts[c := to]) == Busy(contexts) - (if contexts[c].busy then 1 else 0) + (if to.busy then 1 else 0)
    ensures Busy(contexts[..c] + contexts[c + 1..]) == Busy(contexts) - if contexts[c].busy then 1 else 0
  {
    hide Busy;
    assert contexts == contexts[..c] + [contexts[c]] + contexts[c + 1..];
    assert contexts[c := to] == contexts[..c] + [to] + contexts[c + 1..];
    BusyMiddle(contexts[..c], contexts[c], contexts[c + 1..]);
    BusyMiddle(contexts[..c], to, contexts[c + 1..]);
  }

  lemma {:induction false} AllBusy(contexts: seq<Context>)
    ensures Busy(contexts) == |contexts| <==> forall k :: 0 <= k < |contexts| ==> contexts[k].busy
  {
    if contexts != [] { AllBusy(contexts[..|contexts| - 1]); }
  }

  /** The workers running a job in one of these contexts. */
  ghost function Runners(workers: seq<Worker>, m: Module, contexts: seq<Context>): set<nat>
  {
    set w: nat | w < |workers| && workers[w].Running? && workers[w].owner == m
                 && exists k :: 0 <= k < |contexts| && contexts[k].id == workers[w].context
  }

  lemma {:induction false} BusyHaveRunners(p: Pool, m: Module, n: nat)
    requires Inv(p) && m in p.owners && n <= |p.owners[m].contexts|
    ensures Busy(p.owners[m].contexts[..n]) <= |Runners(p.workers, m, p.owners[m].contexts[..n])|
  {
    hide Inv, Runners;
    var contexts := p.owners[m].contexts;
    if n > 0 {
      BusyHaveRunners(p, m, n - 1);
      assert contexts[..n][..n - 1] == contexts[..n - 1] && contexts[..n][n - 1] == contexts[n - 1];
      RunnersRise(p.workers, m, contexts, n);
      Fewer(Runners(p.workers, m, contexts[..n - 1]), Runners(p.workers, m, contexts[..n]));
      if contexts[n - 1].busy { NewRunner(p, m, n); }
    }
  }

  lemma {:induction false} NewRunner(p: Pool, m: Module, n: nat)
    requires Inv(p) && m in p.owners && 0 < n <= |p.owners[m].contexts| && p.owners[m].contexts[n - 1].busy
    ensures var contexts := p.owners[m].contexts;
            |Runners(p.workers, m, contexts[..n - 1])| < |Runners(p.workers, m, contexts[..n])|
  {
    var contexts := p.owners[m].contexts;
    assert OwnerInv(p.owners[m], |p.workers|, p.nextContext);
    assert Held(p.workers, m, contexts[n - 1].id);
    hide Inv;
    var w :| 0 <= w < |p.workers| && p.workers[w].Running? && p.workers[w].owner == m && p.workers[w].context == contexts[n - 1].id;
    assert contexts[..n][n - 1] == contexts[n - 1];
    RunnersRise(p.workers, m, contexts, n);
    assert w in Runners(p.workers, m, contexts[..n]) && w !in Runners(p.workers, m, contexts[..n - 1]);
    hide Runners;
    Fewer(Runners(p.workers, m, contexts[..n - 1]), Runners(p.workers, m, contexts[..n]));
  }

  lemma {:induction false} RunnersRise(workers: seq<Worker>, m: Module, contexts: seq<Context>, n: nat)
    requires 0 < n <= |contexts|
    ensures Runners(workers, m, contexts[..n - 1]) <= Runners(workers, m, contexts[..n])
  {
    forall w <- Runners(workers, m, contexts[..n - 1]) ensures w in Runners(workers, m, contexts[..n]) {
      var k :| 0 <= k < n - 1 && contexts[..n - 1][k].id == workers[w].context;
      assert contexts[..n][k] == contexts[..n - 1][k];
    }
  }

  lemma {:induction false} Fewer(few: set<nat>, many: set<nat>)
    requires few <= many
    ensures |few| <= |many|
    ensures |few| == |many| ==> few == many
  {
    assert many == few + (many - few);
    assert |many| == |few| + |many - few|;
  }

  ghost function Below(n: nat): (all: set<nat>)
    ensures |all| == n && forall w: nat :: w in all <==> w < n
  {
    if n == 0 then {} else Below(n - 1) + {n - 1}
  }

  /** No more contexts are busy than jobs are counted as running. */
  lemma {:induction false} BusyAreRunning(p: Pool, m: Module)
    requires Inv(p) && m in p.owners
    ensures Busy(p.owners[m].contexts) <= p.owners[m].running
  {
    var contexts := p.owners[m].contexts;
    assert contexts[..|contexts|] == contexts;
    BusyHaveRunners(p, m, |contexts|);
    Fewer(Runners(p.workers, m, contexts), Servers(p.workers, m));
  }

  // ---------------------------------------------------------------- enough contexts

  /** Contexts for all waiting and running jobs, or for all workers. */
  predicate Ample(o: Owner, workers: nat)
  {
    |o.contexts| >= Min(|o.jobs| + Busy(o.contexts), workers)
  }

  predicate AllAmple(p: Pool)
  {
    forall m <- p.owners :: Ample(p.owners[m], |p.workers|)
  }

  lemma {:induction false} TakenAmple(p: Pool, w: nat)
    requires Inv(p) && AllAmple(p) && CanTake(p, w)
    ensures AllAmple(Taken(p, w)) && AllAmple(Take(p, w))
  {
    var m := p.ready[0];
    var o := p.owners[m];
    var c := Available(o.contexts).value;
    BusyChange(o.contexts, c, Context(o.contexts[c].id, true));
    hide Available, Busy, Inv;
    var q := Taken(p, w);
    assert Ample(o, |p.workers|);
    assert q.owners[m].jobs == o.jobs[1..];
    ScheduleAmple(q, m);
  }

  lemma {:induction false} ScheduleAmple(p: Pool, m: Module)
    requires AllAmple(p) && m in p.owners
    ensures AllAmple(Schedule(p, m))
  {}

  lemma {:induction false} FinishAmple(p: Pool, w: nat)
    requires Inv(p) && AllAmple(p) && CanFinish(p, w)
    ensures AllAmple(Step(p, FinishJob(w)))
  {
    BusyPosition(p, w);
    FinishIs(p, w);
    hide Position, Servable, Inv, Step, AllAmple;
    FinishedAmple(p, w, Finish(p, w));
  }

  lemma {:induction false} FinishedAmple(p: Pool, w: nat, q: Pool)
    requires CanFinish(p, w) && p.workers[w].owner in p.owners && p.owners[p.workers[w].owner].running > 0 && AllAmple(p)
    requires var contexts := p.owners[p.workers[w].owner].contexts;
             var c := Position(contexts, p.workers[w].context);
             c.Some? && contexts[c.value].busy
    requires q == Finish(p, w)
    ensures AllAmple(q)
  {
    var m := p.workers[w].owner;
    var o := p.owners[m];
    var c := Position(o.contexts, p.workers[w].context).value;
    assert Ample(o, |p.workers|);
    hide Position, Busy, Schedule;
    FreedAmple(o, c, |p.workers|);
    FreedAllAmple(p, m, o.contexts[c := Context(o.contexts[c].id, false)], o.running - 1, w, Waiting);
    FreedAllAmple(p, m, o.contexts[..c] + o.contexts[c + 1..], o.running, w, Retiring(m));
    hide AllAmple, Ample;
    if o.jobs != [] || |o.contexts| == 1 {
      ScheduleAmple(Settled(SetContexts(p, m, o.contexts[c := Context(o.contexts[c].id, false)]), w, m), m);
    }
  }

  lemma {:induction false} FreedAllAmple(p: Pool, m: Module, contexts: seq<Context>, running: nat, w: nat, worker: Worker)
    requires AllAmple(p) && m in p.owners && w < |p.workers|
    ensures Ample(p.owners[m].(contexts := contexts, running := running), |p.workers|) ==>
              AllAmple(p.(owners := p.owners[m := p.owners[m].(contexts := contexts, running := running)], workers := p.workers[w := worker]))
  {
    hide Ample;
  }

  lemma {:induction false} FinishIs(p: Pool, w: nat)
    requires Inv(p) && CanFinish(p, w)
    ensures p.workers[w].owner in p.owners && p.owners[p.workers[w].owner].running > 0
    ensures Position(p.owners[p.workers[w].owner].contexts, p.workers[w].context).Some?
    ensures Step(p, FinishJob(w)) == Finish(p, w)
  {
    WorkerRefs(p, w);
    hide Finish;
  }

  /** Freeing a busy context leaves enough, whether it stays or, with no job waiting, goes. */
  lemma {:induction false} FreedAmple(o: Owner, c: nat, workers: nat)
    requires Ample(o, workers) && c < |o.contexts| && o.contexts[c].busy && o.running > 0
    ensures Ample(o.(contexts := o.contexts[c := Context(o.contexts[c].id, false)], running := o.running - 1), workers)
    ensures o.jobs == [] ==> Ample(o.(contexts := o.contexts[..c] + o.contexts[c + 1..]), workers)
  {
    BusyChange(o.contexts, c, Context(o.contexts[c].id, false));
    hide Busy;
  }

  /** A running worker's context is a busy one. */
  lemma {:induction false} BusyPosition(p: Pool, w: nat)
    requires Inv(p) && CanFinish(p, w)
    ensures p.workers[w].owner in p.owners
    ensures var contexts := p.owners[p.workers[w].owner].contexts;
            Position(contexts, p.workers[w].context).Some? && contexts[Position(contexts, p.workers[w].context).value].busy
  {
    WorkerRefs(p, w);
    var o := p.owners[p.workers[w].owner];
    assert OwnerInv(o, |p.workers|, p.nextContext);
    var c := Position(o.contexts, p.workers[w].context).value;
    assert HasContext(o, p.workers[w].context, true);
    var k :| 0 <= k < |o.contexts| && o.contexts[k] == Context(p.workers[w].context, true);
    assert k == c;
  }

  lemma {:induction false} ResumeAmple(p: Pool, w: nat)
    requires Inv(p) && AllAmple(p) && CanResume(p, w)
    ensures AllAmple(Step(p, ResumeWorker(w)))
  {
    WorkerRefs(p, w);
    assert Step(p, ResumeWorker(w)) == Resume(p, w);
    hide Busy, Inv, Available, Step;
    ScheduleAmple(Settled(p, w, p.workers[w].owner), p.workers[w].owner);
  }

  /** A submission accepted by an owner that has, or is given, room for one more. */
  lemma {:induction false} EnqueueAmple(r: Pool, m: Module, job: Job)
    requires AllAmple(r) && m in r.owners && Busy(r.owners[m].contexts) <= r.owners[m].running
    ensures AllAmple(Enqueue(if WantsContext(r, m) then Grown(r, m) else r, m, job))
  {
    var g := if WantsContext(r, m) then Grown(r, m) else r;
    var o := r.owners[m];
    BusyConcat(o.contexts, [Context(r.nextContext, false)]);
    BusyOne(Context(r.nextContext, false));
    hide Busy, Available;
    assert Ample(o, |r.workers|);
    assert AllAmple(Accepted(g, m, job));
    ScheduleAmple(Accepted(g, m, job), m);
  }

  lemma {:induction false} SubmitAmple(p: Pool, m: Module, job: Job, started: nat, created: bool)
    requires Inv(p) && AllAmple(p)
    ensures AllAmple(Submit(p, m, job, started, created).0)
  {
    var q := Started(p, started);
    StartedKeeps(p, started);
    assert AllAmple(q);
    hide Inv, Enqueue, Grown, WantsContext, Started;
    if !p.stopping && m !in p.halted && m !in p.disabled && q.workers != [] {
      assert q.halted == p.halted by { StartedFlags(p, started); }
      OpenedKeeps(q, m);
      OpenedAmple(q, m);
      var r := Opened(q, m);
      hide Opened, AllAmple;
      BusyAreRunning(r, m);
      EnqueueAmple(r, m, job);
    }
  }

  lemma {:induction false} StartedFlags(p: Pool, started: nat)
    ensures Started(p, started).halted == p.halted
  {}

  lemma {:induction false} OpenedAmple(p: Pool, m: Module)
    requires AllAmple(p)
    ensures AllAmple(Opened(p, m)) && m in Opened(p, m).owners
  {}

  lemma {:induction false} StepAmple(p: Pool, a: Action)
    requires Inv(p) && AllAmple(p)
    ensures AllAmple(Step(p, a))
  {
    hide AllAmple, Take, Submit;
    match a {
      case SubmitJob(m, job, started, created) => SubmitAmple(p, m, job, started, created);
      case TakeJob(w) =>
        if CanTake(p, w) { TakenAmple(p, w); }
      case FinishJob(w) =>
        if CanFinish(p, w) { FinishAmple(p, w); }
      case ResumeWorker(w) =>
        if CanResume(p, w) { ResumeAmple(p, w); }
      case _ => OtherAmple(p, a);
    }
  }

  lemma {:induction false} OtherAmple(p: Pool, a: Action)
    requires Inv(p) && AllAmple(p) && !a.SubmitJob? && !a.TakeJob? && !a.FinishJob? && !a.ResumeWorker?
    ensures AllAmple(Step(p, a))
  {
    hide Inv, Busy;
  }

  lemma {:induction false} RunAmple(actions: seq<Action>)
    ensures AllAmple(Run(EMPTY, actions))
  {
    assert Inv(EMPTY) && AllAmple(EMPTY);
    hide Inv, Step, AllAmple;
    if actions != [] {
      RunAmple(actions[..|actions| - 1]);
      StepAmple(Run(EMPTY, actions[..|actions| - 1]), actions[|actions| - 1]);
    }
  }

  /**
   In every run: an owner has contexts for all its waiting and running jobs or for all workers, so a waiting
   job is in the ready queue unless every single worker is running a job of the same owner.
   */
  lemma {:induction false} WaitingMeansAllWorkersServe(actions: seq<Action>, m: Module)
    requires m in Run(EMPTY, actions).owners && Run(EMPTY, actions).owners[m].jobs != []
    ensures var p := Run(EMPTY, actions);
            && Ample(p.owners[m], |p.workers|)
            && (m in p.ready || forall w <- p.workers :: w.Running? && w.owner == m)
  {
    RunAmple(actions);
    WaitingServed(Run(EMPTY, actions), m);
  }

  lemma {:induction false} WaitingServed(p: Pool, m: Module)
    requires Inv(p) && AllAmple(p) && m in p.owners && p.owners[m].jobs != []
    ensures Ample(p.owners[m], |p.workers|)
    ensures m in p.ready || forall w <- p.workers :: w.Running? && w.owner == m
  {
    hide Inv, Ample;
    if m !in p.ready { NobodyFree(p, m); }
  }

  lemma {:induction false} NobodyFree(p: Pool, m: Module)
    requires Inv(p) && m in p.owners && p.owners[m].jobs != [] && m !in p.ready && Ample(p.owners[m], |p.workers|)
    ensures forall w <- p.workers :: w.Running? && w.owner == m
  {
    var contexts := p.owners[m].contexts;
    assert contexts[..|contexts|] == contexts;
    assert Available(contexts).None?;
    BusyHaveRunners(p, m, |contexts|);
    hide Inv;
    AllBusy(contexts);
    hide Busy, Available;
    EveryoneRuns(p.workers, m, contexts);
  }

  lemma {:induction false} EveryoneRuns(workers: seq<Worker>, m: Module, contexts: seq<Context>)
    requires |Runners(workers, m, contexts)| >= |workers|
    ensures forall w <- workers :: w.Running? && w.owner == m
  {
    Fewer(Runners(workers, m, contexts), Below(|workers|));
    forall w <- workers ensures w.Running? && w.owner == m {
      var k :| 0 <= k < |workers| && workers[k] == w;
      assert k in Below(|workers|);
    }
  }

  // ---------------------------------------------------------------- which submissions are accepted

  function EntryOf(p: Pool, m: Module): Owner
  {
    if m in p.owners then p.owners[m] else Owner([], [], 0, false, false)
  }

  function WorkersThen(p: Pool, started: nat): nat
  {
    if p.workers == [] then started else |p.workers|
  }

  /** The owner needs no further context for one more job. */
  predicate Suffices(o: Owner, workers: nat)
  {
    |o.contexts| > |o.jobs| + o.running || |o.contexts| >= workers
  }

  /** The owner's entry is there, and the worker threads are. */
  lemma {:induction false} OpenedIs(p: Pool, m: Module, started: nat)
    ensures var r := Opened(Started(p, started), m);
            && m in r.owners && r.owners[m] == EntryOf(p, m) && |r.workers| == WorkersThen(p, started)
            && r.ready == p.ready && r.nextContext == p.nextContext && forall n :: EntryOf(r, n) == EntryOf(p, n)
    ensures Started(p, started).ready == p.ready && Started(p, started).owners == p.owners
    ensures |Started(p, started).workers| == WorkersThen(p, started)
  {}

  /** Only the owner changes: it has one more job, and is scheduled. */
  lemma {:induction false} EnqueuedIs(p: Pool, m: Module, job: Job)
    requires m in p.owners
    ensures var q := Enqueue(p, m, job);
            && m in q.owners && q.owners[m] == p.owners[m].(jobs := p.owners[m].jobs + [job], ready := q.owners[m].ready)
            && forall n :: n != m ==> EntryOf(q, n) == EntryOf(p, n)
  {
    hide Servable;
  }

  lemma {:induction false} GrownIs(p: Pool, m: Module)
    requires m in p.owners
    ensures var g := if WantsContext(p, m) then Grown(p, m) else p;
            var o := p.owners[m];
            && m in g.owners && (WantsContext(p, m) <==> !Suffices(o, |p.workers|))
            && g.owners[m] == o.(contexts := o.contexts + if Suffices(o, |p.workers|) then [] else [Context(p.nextContext, false)])
            && forall n :: n != m ==> EntryOf(g, n) == EntryOf(p, n)
  {}

  /**
   A submission is refused exactly when the pool or the module stops, no worker starts, the owner is being
   drained, or it lacks a context that cannot be made. Accepted, the job is the owner's last, and at most one
   context was made, exactly if one was lacking. Refused, no job, context or queue entry changes.
   */
  lemma {:induction false} SubmissionDecided(p: Pool, m: Module, job: Job, started: nat, created: bool)
    ensures var (q, accepted) := Submit(p, m, job, started, created);
            var o, workers := EntryOf(p, m), WorkersThen(p, started);
            && (accepted <==> !p.stopping && m !in p.halted && m !in p.disabled && workers > 0 && !o.closing
                              && (Suffices(o, workers) || created))
            && (accepted ==> m in q.owners && q.owners[m].jobs == o.jobs + [job] && q.owners[m].running == o.running && !q.owners[m].closing
                             && q.owners[m].contexts == o.contexts + if Suffices(o, workers) then [] else [Context(p.nextContext, false)])
            && (!accepted ==> q.ready == p.ready && EntryOf(q, m) == o)
            && (forall n :: n != m ==> EntryOf(q, n) == EntryOf(p, n))
  {
    hide Enqueue, Opened, Started;
    OpenedIs(p, m, started);
    var r := Opened(Started(p, started), m);
    GrownIs(r, m);
    EnqueuedIs(if WantsContext(r, m) then Grown(r, m) else r, m, job);
    hide WantsContext, Suffices, Grown, EntryOf;
  }

  // ---------------------------------------------------------------- after a job

  /** The owner of worker `w` after its job, and the worker: no one else is touched. */
  ghost predicate GaveUp(p: Pool, w: nat, q: Pool)
  {
    && w < |p.workers| && p.workers[w].Running? && p.workers[w].owner in p.owners && p.workers[w].owner in q.owners
    && var m, id := p.workers[w].owner, p.workers[w].context;
    && var was, now := p.owners[m], q.owners[m];
    && q.owners == p.owners[m := now] && now.jobs == was.jobs
    && exists c ::
         && 0 <= c < |was.contexts| && was.contexts[c] == Context(id, true)
         && if was.jobs == [] && |was.contexts| > 1
            then now.contexts == was.contexts[..c] + was.contexts[c + 1..] && q.workers == p.workers[w := Retiring(m)]
            else now.contexts == was.contexts[c := Context(id, false)] && q.workers == p.workers[w := Waiting]
  }

  /**
   A worker back from a job gives up its context: the context is destroyed exactly when no job of the owner
   waits and it has others, and is idle otherwise. All other contexts and owners stay.
   */
  lemma {:induction false} ContextGivenUp(p: Pool, w: nat)
    requires Inv(p) && CanFinish(p, w)
    ensures GaveUp(p, w, Step(p, FinishJob(w)))
  {
    BusyPosition(p, w);
    FinishIs(p, w);
    hide Position, Servable, Inv, Step;
    FinishGivesUp(p, w, Finish(p, w));
  }

  lemma {:induction false} FinishGivesUp(p: Pool, w: nat, q: Pool)
    requires CanFinish(p, w) && p.workers[w].owner in p.owners && p.owners[p.workers[w].owner].running > 0
    requires var contexts := p.owners[p.workers[w].owner].contexts;
             var c := Position(contexts, p.workers[w].context);
             c.Some? && contexts[c.value].busy
    requires q == Finish(p, w)
    ensures GaveUp(p, w, q)
  {
    var m := p.workers[w].owner;
    var contexts := p.owners[m].contexts;
    var c := Position(contexts, p.workers[w].context).value;
    hide Position, Available;
    assert contexts[c] == Context(p.workers[w].context, true);
    if p.owners[m].jobs != [] || |contexts| == 1 {
      var settled := Settled(SetContexts(p, m, contexts[c := Context(contexts[c].id, false)]), w, m);
      assert q == Schedule(settled, m);
      OnlyScheduled(settled, m);
      hide Schedule;
    }
    assert q.owners == p.owners[m := q.owners[m]];
  }

  lemma {:induction false} OnlyScheduled(p: Pool, m: Module)
    requires m in p.owners
    ensures var q := Schedule(p, m);
            && m in q.owners && q.owners == p.owners[m := q.owners[m]] && q.owners[m] == p.owners[m].(ready := q.owners[m].ready)
            && q.workers == p.workers
  {
    hide Servable;
  }

  // ---------------------------------------------------------------- no way back

  /** The pool is being destroyed, or the module has stopped or failed. */
  predicate Over(p: Pool, m: Module) { p.stopping || m in p.halted || m in p.disabled }

  lemma {:induction false} OverStays(p: Pool, a: Action, m: Module)
    requires Inv(p)
    ensures Over(p, m) ==> Over(Step(p, a), m)
    ensures p.stopping ==> Step(p, a).stopping && Step(p, a).log == p.log
  {
    hide Position, Inv, Servable;
  }

  lemma {:induction false} OverFrom(p: Pool, m: Module)
    requires Inv(p)
    ensures Over(Step(p, Stop), m) && Over(Step(p, Halt(m)), m) && Over(Step(p, Disable(m)), m) && Over(Step(p, BeginRelease(m)), m)
  {
    assert m in p.releases ==> m in p.halted;
    hide Inv;
  }

  /** After `Stop`, or once a module is halted or disabled, its submissions are refused for good; after `Stop` no job is handed out. */
  lemma {:induction false} RefusedForGood(p: Pool, actions: seq<Action>, m: Module, job: Job, started: nat, created: bool)
    requires Inv(p) && Over(p, m)
    ensures !Submit(Run(p, actions), m, job, started, created).1
    ensures p.stopping ==> Run(p, actions).log == p.log
  {
    OverLater(p, actions, m);
  }

  lemma {:induction false} OverLater(p: Pool, actions: seq<Action>, m: Module)
    requires Inv(p) && Over(p, m)
    ensures Over(Run(p, actions), m)
    ensures p.stopping ==> Run(p, actions).stopping && Run(p, actions).log == p.log
  {
    hide Inv, Step;
    if actions != [] {
      OverLater(p, actions[..|actions| - 1], m);
      OverStays(Run(p, actions[..|actions| - 1]), actions[|actions| - 1], m);
    }
  }
}
