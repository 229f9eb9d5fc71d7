/**
 The worker pool of client/src/tasks.cpp as a transition system: one state, and one transition for each
 stretch of code that runs while the pool lock is held. A run is any sequence of transitions, so every
 interleaving of submitters, workers, drains and releases is one.

 Modules and contexts stand for the pointers of the source. The identity of a released module is not reused.
 */
module TaskPool {
  import opened Machine
  import opened Options

  type Module = nat
  type Job = u64

  datatype Context = Context(id: nat, busy: bool)

  datatype Owner = Owner(contexts: seq<Context>, jobs: seq<Job>, running: nat, closing: bool, ready: bool)

  /** Where a worker thread is between two lock acquisitions. */
  datatype Worker =
    | Waiting
    | Running(owner: Module, context: nat, job: Job)
    | Retiring(owner: Module)
    | Exited

  /** Where `Tasks_Release_Owner` is for a module: inside `Drain`, past it, or done. */
  datatype Release = Draining | Drained | Erased

  /** What has happened so far: jobs accepted and dequeued per owner, and the owners served, in order. */
  datatype Log = Log(accepted: map<Module, seq<Job>>, taken: map<Module, seq<Job>>, served: seq<Module>)

  datatype Pool = Pool(owners: map<Module, Owner>, ready: seq<Module>, workers: seq<Worker>, stopping: bool,
                       halted: set<Module>, disabled: set<Module>, releases: map<Module, Release>,
                       nextContext: nat, log: Log)

  const EMPTY := Pool(map[], [], [], false, {}, {}, map[], 0, Log(map[], map[], []))

  function Listed(lists: map<Module, seq<Job>>, m: Module): seq<Job>
  {
    if m in lists then lists[m] else []
  }

  // ---------------------------------------------------------------- the code under the lock

  /** `Available_Context`: the position of the first context that is not busy. */
  function Available(contexts: seq<Context>): (r: Option<nat>)
    ensures r.Some? ==> r.value < |contexts| && !contexts[r.value].busy
                        && forall k :: 0 <= k < r.value ==> contexts[k].busy
    ensures r.None? ==> forall k :: 0 <= k < |contexts| ==> contexts[k].busy
  {
    if contexts == [] then None
    else if !contexts[0].busy then Some(0)
    else
      match Available(contexts[1..])
      case None => None
      case Some(k) => Some(k + 1)
  }

  /** The position of a context in its owner. */
  function Position(contexts: seq<Context>, id: nat): (r: Option<nat>)
    ensures r.Some? ==> r.value < |contexts| && contexts[r.value].id == id
    ensures r.None? ==> forall k :: 0 <= k < |contexts| ==> contexts[k].id != id
  {
    if contexts == [] then None
    else if contexts[0].id == id then Some(0)
    else
      match Position(contexts[1..], id)
      case None => None
      case Some(k) => Some(k + 1)
  }

  predicate Servable(o: Owner)
  {
    o.jobs != [] && Available(o.contexts).Some?
  }

  function Schedule(p: Pool, m: Module): Pool
    requires m in p.owners
  {
    if !p.owners[m].ready && Servable(p.owners[m])
    then p.(owners := p.owners[m := p.owners[m].(ready := true)], ready := p.ready + [m])
    else p
  }

  /** A worker whose wait ends: it takes the first job of the first ready owner. */
  predicate CanTake(p: Pool, w: nat)
  {
    w < |p.workers| && p.workers[w].Waiting? && !p.stopping && p.ready != []
  }

  /** The state of a take just before its owner is scheduled again. */
  function Taken(p: Pool, w: nat): Pool
    requires CanTake(p, w) && p.ready[0] in p.owners && Servable(p.owners[p.ready[0]])
  {
    var m := p.ready[0];
    var o := p.owners[m];
    var c := Available(o.contexts).value;
    p.(owners := p.owners[m := Owner(o.contexts[c := Context(o.contexts[c].id, true)], o.jobs[1..], o.running + 1,
                                     o.closing, false)],
       ready := p.ready[1..],
       workers := p.workers[w := Running(m, o.contexts[c].id, o.jobs[0])],
       log := p.log.(taken := p.log.taken[m := Listed(p.log.taken, m) + [o.jobs[0]]], served := p.log.served + [m]))
  }

  function Take(p: Pool, w: nat): Pool
    requires CanTake(p, w) && p.ready[0] in p.owners && Servable(p.owners[p.ready[0]])
  {
    Schedule(Taken(p, w), p.ready[0])
  }

  predicate CanFinish(p: Pool, w: nat)
  {
    w < |p.workers| && p.workers[w].Running?
  }

  /** `running--` for a worker that goes back to waiting. */
  function Settled(p: Pool, w: nat, m: Module): Pool
    requires w < |p.workers| && m in p.owners && p.owners[m].running > 0
  {
    p.(owners := p.owners[m := p.owners[m].(running := p.owners[m].running - 1)], workers := p.workers[w := Waiting])
  }

  function SetContexts(p: Pool, m: Module, contexts: seq<Context>): Pool
    requires m in p.owners
  {
    p.(owners := p.owners[m := p.owners[m].(contexts := contexts)])
  }

  /** A worker back from a job: it frees its context, and either retires it with the lock dropped or settles. */
  function Finish(p: Pool, w: nat): Pool
    requires CanFinish(p, w) && p.workers[w].owner in p.owners && p.owners[p.workers[w].owner].running > 0
    requires Position(p.owners[p.workers[w].owner].contexts, p.workers[w].context).Some?
  {
    var m := p.workers[w].owner;
    var o := p.owners[m];
    var c := Position(o.contexts, p.workers[w].context).value;
    if o.jobs == [] && |o.contexts| > 1
    then SetContexts(p, m, o.contexts[..c] + o.contexts[c + 1..]).(workers := p.workers[w := Retiring(m)])
    else Schedule(Settled(SetContexts(p, m, o.contexts[c := Context(o.contexts[c].id, false)]), w, m), m)
  }

  predicate CanResume(p: Pool, w: nat)
  {
    w < |p.workers| && p.workers[w].Retiring?
  }

  /** A worker that re-acquired the lock after destroying its retired context. */
  function Resume(p: Pool, w: nat): Pool
    requires CanResume(p, w) && p.workers[w].owner in p.owners && p.owners[p.workers[w].owner].running > 0
  {
    Schedule(Settled(p, w, p.workers[w].owner), p.workers[w].owner)
  }

  /** The worker threads exist, as many as start if there were none. */
  function Started(p: Pool, started: nat): Pool
  {
    if p.workers == [] then p.(workers := seq(started, _ => Waiting)) else p
  }

  /** The module has an entry in the owner table. */
  function Opened(p: Pool, m: Module): Pool
  {
    if m in p.owners then p else p.(owners := p.owners[m := Owner([], [], 0, false, false)])
  }

  function Grown(p: Pool, m: Module): Pool
    requires m in p.owners
  {
    SetContexts(p, m, p.owners[m].contexts + [Context(p.nextContext, false)]).(nextContext := p.nextContext + 1)
  }

  predicate WantsContext(p: Pool, m: Module)
    requires m in p.owners
  {
    |p.owners[m].contexts| < Min(|p.owners[m].jobs| + p.owners[m].running + 1, |p.workers|)
  }

  /**
   The locked part of `Submit`. `started` is how many worker threads start if none exist yet, and
   `created` whether a context can be created if one is wanted.
   */
  function Submit(p: Pool, m: Module, job: Job, started: nat, created: bool): (Pool, bool)
  {
    if p.stopping || m in p.halted || m in p.disabled then (p, false)
    else
      var q := Started(p, started);
      if q.workers == [] then (q, false)
      else
        var r := Opened(q, m);
        if r.owners[m].closing || (WantsContext(r, m) && !created) then (r, false)
        else (Enqueue(if WantsContext(r, m) then Grown(r, m) else r, m, job), true)
  }

  /** The state just after a job is accepted, before its owner is scheduled. */
  function Accepted(p: Pool, m: Module, job: Job): Pool
    requires m in p.owners
  {
    p.(owners := p.owners[m := p.owners[m].(jobs := p.owners[m].jobs + [job])],
       log := p.log.(accepted := p.log.accepted[m := Listed(p.log.accepted, m) + [job]]))
  }

  function Enqueue(p: Pool, m: Module, job: Job): Pool
    requires m in p.owners
  {
    Schedule(Accepted(p, m, job), m)
  }

  /** The first locked part of `Drain`: from now on the owner accepts no job. */
  function Close(p: Pool, m: Module): Pool
  {
    if m in p.owners then p.(owners := p.owners[m := p.owners[m].(closing := true)]) else p
  }

  predicate DrainDone(p: Pool, m: Module)
  {
    m in p.owners ==> p.owners[m].jobs == [] && p.owners[m].running == 0
  }

  function Erase(p: Pool, m: Module): Pool
  {
    p.(owners := p.owners - {m}, releases := p.releases[m := Erased])
  }

  // ---------------------------------------------------------------- transitions

  datatype Action =
    | SubmitJob(m: Module, job: Job, started: nat, created: bool)
    | TakeJob(w: nat)
    | FinishJob(w: nat)
    | ResumeWorker(w: nat)
    | DrainOwner(m: Module)     // task_drain
    | Halt(m: Module)           // module.stopping is set
    | Disable(m: Module)        // module.disabled is set
    | BeginRelease(m: Module)   // stopping is set and Drain closes the owner
    | EndDrain(m: Module)       // the wait in Drain ends
    | EraseOwner(m: Module)
    | Stop                      // the pool is destroyed
    | Exit(w: nat)

  /** A transition that cannot fire yet leaves the state as it is. */
  function Step(p: Pool, a: Action): Pool
    requires Inv(p)
  {
    match a
    case SubmitJob(m, job, started, created) => Submit(p, m, job, started, created).0
    case TakeJob(w) => if CanTake(p, w) then Take(p, w) else p
    case FinishJob(w) => if CanFinish(p, w) then WorkerRefs(p, w); Finish(p, w) else p
    case ResumeWorker(w) => if CanResume(p, w) then WorkerRefs(p, w); Resume(p, w) else p
    case DrainOwner(m) => Close(p, m)
    case Halt(m) => p.(halted := p.halted + {m})
    case Disable(m) => p.(disabled := p.disabled + {m})
    case BeginRelease(m) =>
      if m in p.releases then p
      else Close(p.(halted := p.halted + {m}, releases := p.releases[m := Draining]), m)
    case EndDrain(m) =>
      if m in p.releases && p.releases[m].Draining? && DrainDone(p, m) then p.(releases := p.releases[m := Drained]) else p
    case EraseOwner(m) =>
      if m in p.releases && p.releases[m].Drained? then Erase(p, m) else p
    case Stop => p.(stopping := true)
    case Exit(w) =>
      if p.stopping && w < |p.workers| && p.workers[w].Waiting? then p.(workers := p.workers[w := Exited]) else p
  }

  // ---------------------------------------------------------------- the invariant

  predicate Serves(w: Worker, m: Module)
  {
    (w.Running? || w.Retiring?) && w.owner == m
  }

  /** The workers that hold a reference to an owner. */
  ghost function Servers(workers: seq<Worker>, m: Module): set<nat>
  {
    set w: nat | w < |workers| && Serves(workers[w], m)
  }

  predicate HasContext(o: Owner, id: nat, busy: bool)
  {
    exists k :: 0 <= k < |o.contexts| && o.contexts[k] == Context(id, busy)
  }

  /** The ready queue holds each ready owner once, and nothing else; ready owners are those that can be served. */
  ghost predicate QueueInv(p: Pool)
  {
    && (forall i, j :: 0 <= i < j < |p.ready| ==> p.ready[i] != p.ready[j])
    && (forall m <- p.ready :: m in p.owners)
    && (forall m <- p.owners :: p.owners[m].ready <==> m in p.ready)
    && (forall m <- p.owners :: p.owners[m].ready <==> Servable(p.owners[m]))
  }

  ghost predicate OwnerInv(o: Owner, workers: nat, nextContext: nat)
  {
    && |o.contexts| <= workers
    && (forall k :: 0 <= k < |o.contexts| ==> o.contexts[k].id < nextContext)
    && (forall j, k :: 0 <= j < k < |o.contexts| ==> o.contexts[j].id != o.contexts[k].id)
    && (o.contexts == [] ==> o.jobs == [] && o.running == 0)
  }

  ghost predicate OwnersInv(p: Pool)
  {
    forall m <- p.owners :: OwnerInv(p.owners[m], |p.workers|, p.nextContext)
  }

  /** Every worker's references are live: its owner exists, and a running worker has its own busy context. */
  ghost predicate WorkersInv(p: Pool)
  {
    && (forall w :: 0 <= w < |p.workers| && (p.workers[w].Running? || p.workers[w].Retiring?) ==> p.workers[w].owner in p.owners)
    && (forall w :: 0 <= w < |p.workers| && p.workers[w].Running? ==>
          HasContext(p.owners[p.workers[w].owner], p.workers[w].context, true))
    && (forall v, w :: 0 <= v < w < |p.workers| && p.workers[v].Running? && p.workers[w].Running? ==>
          p.workers[v].owner == p.workers[w].owner ==> p.workers[v].context != p.workers[w].context)
    && (forall m <- p.owners :: p.owners[m].running == |Servers(p.workers, m)|)
  }

  /** Some worker runs a job of this owner in this context. */
  ghost predicate Held(workers: seq<Worker>, m: Module, id: nat)
  {
    exists w :: 0 <= w < |workers| && workers[w].Running? && workers[w].owner == m && workers[w].context == id
  }

  /** Only a running worker keeps a context busy. */
  ghost predicate BusyInv(p: Pool)
  {
    forall m <- p.owners, k :: 0 <= k < |p.owners[m].contexts| && p.owners[m].contexts[k].busy ==>
      Held(p.workers, m, p.owners[m].contexts[k].id)
  }

  /** Accepted jobs are the dequeued ones followed by the waiting ones, in submission order. */
  ghost predicate LogInv(p: Pool)
  {
    forall m :: Listed(p.log.accepted, m) == Listed(p.log.taken, m) + (if m in p.owners then p.owners[m].jobs else [])
  }

  ghost predicate ReleaseInv(p: Pool)
  {
    forall m <- p.releases ::
      && m in p.halted
      && (m in p.owners ==> p.owners[m].closing)
      && (p.releases[m].Drained? ==> DrainDone(p, m))
      && (p.releases[m].Erased? ==> m !in p.owners)
  }

  ghost predicate Inv(p: Pool)
  {
    QueueInv(p) && OwnersInv(p) && WorkersInv(p) && BusyInv(p) && LogInv(p) && ReleaseInv(p)
    && (p.workers == [] ==> p.owners == map[])
  }

  // ---------------------------------------------------------------- references are live

  /** Whatever a worker refers to when it re-acquires the lock is there. */
  lemma {:induction false} WorkerRefs(p: Pool, w: nat)
    requires WorkersInv(p) && w < |p.workers| && (p.workers[w].Running? || p.workers[w].Retiring?)
    ensures p.workers[w].owner in p.owners && p.owners[p.workers[w].owner].running > 0
    ensures p.workers[w].Running? ==> Position(p.owners[p.workers[w].owner].contexts, p.workers[w].context).Some?
  {
    var m := p.workers[w].owner;
    assert w in Servers(p.workers, m);
    if p.workers[w].Running? {
      var k :| 0 <= k < |p.owners[m].contexts| && p.owners[m].contexts[k] == Context(p.workers[w].context, true);
    }
  }

  lemma {:induction false} ServersChange(workers: seq<Worker>, w: nat, v: Worker, m: Module)
    requires w < |workers|
    ensures |Servers(workers[w := v], m)|
            == |Servers(workers, m)| - (if Serves(workers[w], m) then 1 else 0) + (if Serves(v, m) then 1 else 0)
  {
    var was, now := Servers(workers, m), Servers(workers[w := v], m);
    assert was - {w} == now - {w};
    assert (w in was <==> Serves(workers[w], m)) && (w in now <==> Serves(v, m));
    assert |was| == |was - {w}| + (if w in was then 1 else 0);
    assert |now| == |now - {w}| + (if w in now then 1 else 0);
  }

  // ---------------------------------------------------------------- every transition keeps the invariant

  /** The queue invariant, except that the given owner may still have to be scheduled. */
  ghost predicate QueueBut(p: Pool, m: Module)
  {
    && (forall i, j :: 0 <= i < j < |p.ready| ==> p.ready[i] != p.ready[j])
    && (forall n <- p.ready :: n in p.owners)
    && (forall n <- p.owners :: p.owners[n].ready <==> n in p.ready)
    && (forall n <- p.owners :: p.owners[n].ready ==> Servable(p.owners[n]))
    && (forall n <- p.owners :: n != m && Servable(p.owners[n]) ==> p.owners[n].ready)
  }

  /** Everything but the queue. */
  ghost predicate RestInv(p: Pool)
  {
    OwnersInv(p) && WorkersInv(p) && BusyInv(p) && LogInv(p) && ReleaseInv(p) && (p.workers == [] ==> p.owners == map[])
  }

  lemma {:induction false} ScheduleQueue(p: Pool, m: Module)
    requires m in p.owners && QueueBut(p, m)
    ensures QueueInv(Schedule(p, m))
  {
    var q := Schedule(p, m);
    if q != p {
      assert forall n <- q.ready :: n == m || n in p.ready;
      assert forall n <- p.ready :: n in q.ready;
      assert m in q.ready by { assert q.ready[|p.ready|] == m; }
    }
  }

  /** The parts of the invariant that do not look at the ready flag survive a change of it. */
  lemma {:induction false} ReadyFlagIrrelevant(p: Pool, m: Module, flag: bool, ready: seq<Module>)
    requires m in p.owners && RestInv(p)
    ensures RestInv(p.(owners := p.owners[m := p.owners[m].(ready := flag)], ready := ready))
  {
    hide LogInv, WorkersInv, BusyInv, OwnersInv, ReleaseInv;
    var q := p.(owners := p.owners[m := p.owners[m].(ready := flag)], ready := ready);
    ContextsCarry(p, q);
    LogCarries(p, q);
    OwnersCarry(p, q);
  }

  /** Two states whose owners differ at most in the ready flag and the closing of some. */
  ghost predicate SameOwners(p: Pool, q: Pool)
  {
    && q.owners.Keys == p.owners.Keys && |q.workers| == |p.workers| && q.nextContext == p.nextContext
    && q.releases == p.releases && q.halted == p.halted
    && forall n <- p.owners ::
         && q.owners[n].contexts == p.owners[n].contexts && q.owners[n].jobs == p.owners[n].jobs
         && q.owners[n].running == p.owners[n].running && (p.owners[n].closing ==> q.owners[n].closing)
  }

  lemma {:induction false} OwnersCarry(p: Pool, q: Pool)
    requires SameOwners(p, q)
    ensures OwnersInv(p) ==> OwnersInv(q)
    ensures ReleaseInv(p) ==> ReleaseInv(q)
  {
    if OwnersInv(p) {
      forall n <- q.owners ensures OwnerInv(q.owners[n], |q.workers|, q.nextContext) {
        assert OwnerInv(p.owners[n], |p.workers|, p.nextContext);
      }
    }
  }

  /** Two states with the same workers, whose owners have the same contexts and counts. */
  ghost predicate SameContexts(p: Pool, q: Pool)
  {
    q.owners.Keys == p.owners.Keys && q.workers == p.workers && q.nextContext == p.nextContext
    && forall n <- p.owners :: q.owners[n].contexts == p.owners[n].contexts && q.owners[n].running == p.owners[n].running
  }

  lemma {:induction false} ContextsCarry(p: Pool, q: Pool)
    requires SameContexts(p, q)
    ensures WorkersInv(p) ==> WorkersInv(q)
    ensures BusyInv(p) ==> BusyInv(q)
  {
    if BusyInv(p) {
      hide Held;
      forall n <- q.owners, k | 0 <= k < |q.owners[n].contexts| && q.owners[n].contexts[k].busy
        ensures Held(q.workers, n, q.owners[n].contexts[k].id)
      {
        assert p.owners[n].contexts[k].busy;
      }
    }
    if WorkersInv(p) {
      forall w | 0 <= w < |q.workers| && q.workers[w].Running?
        ensures HasContext(q.owners[q.workers[w].owner], q.workers[w].context, true)
      {
        assert HasContext(p.owners[p.workers[w].owner], p.workers[w].context, true);
      }
    }
  }

  lemma {:induction false} ScheduleKeeps(p: Pool, m: Module)
    requires m in p.owners && QueueBut(p, m) && RestInv(p)
    ensures Inv(Schedule(p, m))
  {
    ScheduleQueue(p, m);
    hide QueueInv, RestInv, QueueBut;
    if !p.owners[m].ready && Servable(p.owners[m]) {
      ReadyFlagIrrelevant(p, m, true, p.ready + [m]);
    }
    InvParts(Schedule(p, m));
  }

  lemma {:induction false} InvParts(p: Pool)
    ensures Inv(p) <==> QueueInv(p) && RestInv(p)
  {}

  // A turn changes one worker and one owner; the others keep their places.

  lemma {:induction false} TakeQueue(p: Pool, w: nat)
    requires Inv(p) && CanTake(p, w)
    ensures QueueBut(Taken(p, w), p.ready[0])
  {
    var m, q := p.ready[0], Taken(p, w);
    forall n <- q.owners ensures q.owners[n].ready <==> n in q.ready {
      if n in q.ready {
        var i :| 0 <= i < |q.ready| && q.ready[i] == n;
        assert p.ready[i + 1] == n;
      } else if n in p.ready {
        assert n == m;
      }
    }
  }

  lemma {:induction false} TakeOwners(p: Pool, w: nat)
    requires Inv(p) && CanTake(p, w)
    ensures OwnersInv(Taken(p, w))
  {
    var m, q := p.ready[0], Taken(p, w);
    assert OwnerInv(p.owners[m], |p.workers|, p.nextContext);
    assert OwnerInv(q.owners[m], |p.workers|, p.nextContext) by {
      MarkedOwner(p.owners[m], Available(p.owners[m].contexts).value, q.owners[m], |p.workers|, p.nextContext);
    }
  }

  lemma {:induction false} MarkedOwner(o: Owner, c: nat, r: Owner, workers: nat, next: nat)
    requires OwnerInv(o, workers, next) && c < |o.contexts|
    requires r.contexts == o.contexts[c := Context(o.contexts[c].id, true)]
    ensures OwnerInv(r, workers, next)
  {
    assert forall k :: 0 <= k < |o.contexts| ==> r.contexts[k].id == o.contexts[k].id;
  }

  lemma {:induction false} TakeLog(p: Pool, w: nat)
    requires Inv(p) && CanTake(p, w)
    ensures LogInv(Taken(p, w)) && ReleaseInv(Taken(p, w))
  {
    hide OwnersInv, WorkersInv, BusyInv, LogInv;
    var m, q := p.ready[0], Taken(p, w);
    TakenLogged(p, q, m);
    assert forall n <- p.releases :: p.releases[n].Drained? ==> n != m;
  }

  ghost predicate SameJobs(p: Pool, q: Pool)
  {
    q.log == p.log
    && forall n :: (if n in q.owners then q.owners[n].jobs else []) == if n in p.owners then p.owners[n].jobs else []
  }

  lemma {:induction false} LogCarries(p: Pool, q: Pool)
    requires LogInv(p) && SameJobs(p, q)
    ensures LogInv(q)
  {}

  lemma {:induction false} TakenLogged(p: Pool, q: Pool, m: Module)
    requires LogInv(p) && m in p.owners && p.owners[m].jobs != [] && m in q.owners
    requires q.owners == p.owners[m := q.owners[m]] && q.owners[m].jobs == p.owners[m].jobs[1..]
    requires q.log.accepted == p.log.accepted
    requires q.log.taken == p.log.taken[m := Listed(p.log.taken, m) + [p.owners[m].jobs[0]]]
    ensures LogInv(q)
  {
    var jobs := p.owners[m].jobs;
    assert jobs == [jobs[0]] + jobs[1..];
    assert Listed(p.log.accepted, m) == Listed(p.log.taken, m) + jobs;
    assert Listed(p.log.taken, m) + jobs == Listed(p.log.taken, m) + [jobs[0]] + jobs[1..];
  }

  lemma {:induction false} TakeWorkers(p: Pool, w: nat)
    requires Inv(p) && CanTake(p, w)
    ensures WorkersInv(Taken(p, w))
  {
    var m, q := p.ready[0], Taken(p, w);
    var o, r := p.owners[m], q.owners[m];
    var c := Available(o.contexts).value;
    assert r.contexts[c] == Context(o.contexts[c].id, true);
    forall v | 0 <= v < |q.workers| && q.workers[v].Running?
      ensures q.workers[v].owner in q.owners && HasContext(q.owners[q.workers[v].owner], q.workers[v].context, true)
      ensures v != w && q.workers[v].owner == m ==> q.workers[v].context != o.contexts[c].id
    {
      if v != w {
        KeptContext(p, v, m, c);
      }
    }
    forall n <- q.owners ensures q.owners[n].running == |Servers(q.workers, n)| {
      ServersChange(p.workers, w, q.workers[w], n);
    }
  }

  /** Another running worker's context is not the idle one, and stays where it is. */
  lemma {:induction false} KeptContext(p: Pool, v: nat, m: Module, c: nat)
    requires WorkersInv(p) && OwnersInv(p) && m in p.owners
    requires v < |p.workers| && p.workers[v].Running?
    requires c < |p.owners[m].contexts| && !p.owners[m].contexts[c].busy
    ensures var o := p.owners[m];
            var n := p.workers[v].owner;
            && n in p.owners
            && HasContext(if n == m then o.(contexts := o.contexts[c := Context(o.contexts[c].id, true)]) else p.owners[n],
                          p.workers[v].context, true)
            && (n == m ==> p.workers[v].context != o.contexts[c].id)
  {
    var n := p.workers[v].owner;
    var k :| 0 <= k < |p.owners[n].contexts| && p.owners[n].contexts[k] == Context(p.workers[v].context, true);
    if n == m {
      var o := p.owners[m];
      assert OwnerInv(o, |p.workers|, p.nextContext);
      assert k != c;
      assert o.contexts[c := Context(o.contexts[c].id, true)][k] == o.contexts[k];
      assert if k < c then o.contexts[k].id != o.contexts[c].id else o.contexts[c].id != o.contexts[k].id;
    }
  }

  /** A held context stays held when another worker, or the holder of another context, changes. */
  lemma {:induction false} StillHeld(workers: seq<Worker>, w: nat, v: Worker, m: Module, id: nat)
    requires w < |workers| && Held(workers, m, id)
    requires workers[w].Running? ==> workers[w].owner != m || workers[w].context != id
    ensures Held(workers[w := v], m, id)
  {
    var u :| 0 <= u < |workers| && workers[u].Running? && workers[u].owner == m && workers[u].context == id;
    assert workers[w := v][u] == workers[u];
  }

  lemma {:induction false} TakeBusy(p: Pool, w: nat)
    requires Inv(p) && CanTake(p, w)
    ensures BusyInv(Taken(p, w))
  {
    var m, q := p.ready[0], Taken(p, w);
    var c := Available(p.owners[m].contexts).value;
    forall n <- q.owners, k | 0 <= k < |q.owners[n].contexts| && q.owners[n].contexts[k].busy
      ensures Held(q.workers, n, q.owners[n].contexts[k].id)
    {
      if n == m && k == c {
        assert q.workers[w] == Running(m, q.owners[m].contexts[c].id, p.owners[m].jobs[0]);
      } else {
        assert p.owners[n].contexts[k].busy;
        StillHeld(p.workers, w, q.workers[w], n, p.owners[n].contexts[k].id);
      }
    }
  }

  lemma {:induction false} TakeKeeps(p: Pool, w: nat)
    requires Inv(p) && CanTake(p, w)
    ensures Inv(Take(p, w))
  {
    TakeQueue(p, w);
    TakeOwners(p, w);
    TakeLog(p, w);
    TakeWorkers(p, w);
    TakeBusy(p, w);
    var q := Taken(p, w);
    assert q.workers != [];
    hide QueueBut, OwnersInv, WorkersInv, BusyInv, LogInv, ReleaseInv;
    ScheduleKeeps(q, p.ready[0]);
  }

  /** What freeing a context does to an owner's list: the freed context is gone or idle, the others are untouched. */
  ghost predicate Frees(was: seq<Context>, now: seq<Context>, id: nat)
  {
    && |now| <= |was| && now != []
    && (forall k :: 0 <= k < |now| ==> exists j :: 0 <= j < |was| && was[j].id == now[k].id && (now[k].busy ==> was[j].busy && was[j].id != id))
    && (forall j :: 0 <= j < |was| && was[j].id != id ==> exists k :: 0 <= k < |now| && now[k] == was[j])
    && (forall j, k :: 0 <= j < k < |now| ==> now[j].id != now[k].id)
  }

  lemma {:induction false} IdlingFrees(was: seq<Context>, c: nat)
    requires c < |was| && forall j, k :: 0 <= j < k < |was| ==> was[j].id != was[k].id
    ensures Frees(was, was[c := Context(was[c].id, false)], was[c].id)
  {
    var now := was[c := Context(was[c].id, false)];
    forall k | 0 <= k < |now|
      ensures exists j :: 0 <= j < |was| && was[j].id == now[k].id && (now[k].busy ==> was[j].busy && was[j].id != was[c].id)
    {
      assert was[k].id == now[k].id;
    }
    forall j | 0 <= j < |was| && was[j].id != was[c].id ensures exists k :: 0 <= k < |now| && now[k] == was[j] {
      assert now[j] == was[j];
    }
  }

  lemma {:induction false} RetiringFrees(was: seq<Context>, c: nat)
    requires c < |was| && |was| > 1 && forall j, k :: 0 <= j < k < |was| ==> was[j].id != was[k].id
    ensures Frees(was, was[..c] + was[c + 1..], was[c].id)
  {
    var now := was[..c] + was[c + 1..];
    forall k | 0 <= k < |now|
      ensures exists j :: 0 <= j < |was| && was[j].id == now[k].id && (now[k].busy ==> was[j].busy && was[j].id != was[c].id)
    {
      var j := if k < c then k else k + 1;
      assert was[j] == now[k];
    }
    forall j | 0 <= j < |was| && was[j].id != was[c].id ensures exists k :: 0 <= k < |now| && now[k] == was[j] {
      var k := if j < c then j else j - 1;
      assert now[k] == was[j];
    }
  }

  /** A running worker frees its context and either waits again or goes on to retire. */
  ghost predicate TurnEnds(p: Pool, w: nat, q: Pool)
  {
    && w < |p.workers| && p.workers[w].Running? && p.workers[w].owner in p.owners
    && var m := p.workers[w].owner;
    && m in q.owners
    && Frees(p.owners[m].contexts, q.owners[m].contexts, p.workers[w].context)
    && p.owners[m].running > 0
    && ((q.workers == p.workers[w := Waiting] && q.owners[m].running == p.owners[m].running - 1)
        || (q.workers == p.workers[w := Retiring(m)] && q.owners[m].running == p.owners[m].running))
    && q.owners == p.owners[m := q.owners[m]]
    && q.owners[m] == p.owners[m].(contexts := q.owners[m].contexts, running := q.owners[m].running)
    && q == p.(owners := q.owners, workers := q.workers)
  }

  lemma {:induction false} EndKeepsWorkers(p: Pool, w: nat, q: Pool)
    requires Inv(p) && TurnEnds(p, w, q)
    ensures WorkersInv(q)
  {
    hide OwnersInv, QueueInv, LogInv, ReleaseInv, BusyInv;
    var m, id := p.workers[w].owner, p.workers[w].context;
    forall v | 0 <= v < |q.workers| && q.workers[v].Running?
      ensures HasContext(q.owners[q.workers[v].owner], q.workers[v].context, true)
    {
      assert v != w && q.workers[v] == p.workers[v];
      assert HasContext(p.owners[p.workers[v].owner], p.workers[v].context, true);
      if q.workers[v].owner == m {
        assert if v < w then p.workers[v].context != id else id != p.workers[v].context;
        var j :| 0 <= j < |p.owners[m].contexts| && p.owners[m].contexts[j] == Context(p.workers[v].context, true);
        var k :| 0 <= k < |q.owners[m].contexts| && q.owners[m].contexts[k] == p.owners[m].contexts[j];
      }
    }
    forall n <- q.owners ensures q.owners[n].running == |Servers(q.workers, n)| {
      ServersChange(p.workers, w, q.workers[w], n);
    }
  }

  lemma {:induction false} FreedIsElsewhere(was: seq<Context>, now: seq<Context>, id: nat, k: nat)
    requires Frees(was, now, id) && k < |now| && now[k].busy
    ensures now[k].id != id
    ensures exists j :: 0 <= j < |was| && was[j].id == now[k].id && was[j].busy
  {
    var j :| 0 <= j < |was| && was[j].id == now[k].id && was[j].busy && was[j].id != id;
  }

  lemma {:induction false} EndKeepsBusy(p: Pool, w: nat, q: Pool)
    requires Inv(p) && TurnEnds(p, w, q)
    ensures BusyInv(q)
  {
    hide OwnersInv, QueueInv, LogInv, ReleaseInv, WorkersInv, Frees, Held;
    var m, id := p.workers[w].owner, p.workers[w].context;
    forall n <- q.owners, k | 0 <= k < |q.owners[n].contexts| && q.owners[n].contexts[k].busy
      ensures Held(q.workers, n, q.owners[n].contexts[k].id)
    {
      if n == m {
        FreedIsElsewhere(p.owners[m].contexts, q.owners[m].contexts, id, k);
        var j :| 0 <= j < |p.owners[m].contexts| && p.owners[m].contexts[j].id == q.owners[m].contexts[k].id
                 && p.owners[m].contexts[j].busy;
        StillHeld(p.workers, w, q.workers[w], n, p.owners[n].contexts[j].id);
      } else {
        assert p.owners[n].contexts[k].busy;
        StillHeld(p.workers, w, q.workers[w], n, p.owners[n].contexts[k].id);
      }
    }
  }

  lemma {:induction false} EndKeepsOwners(p: Pool, w: nat, q: Pool)
    requires Inv(p) && TurnEnds(p, w, q)
    ensures OwnersInv(q)
  {
    var m := p.workers[w].owner;
    var o, r := p.owners[m], q.owners[m];
    assert OwnerInv(o, |p.workers|, p.nextContext);
    forall k | 0 <= k < |r.contexts| ensures r.contexts[k].id < q.nextContext {
      var j :| 0 <= j < |o.contexts| && o.contexts[j].id == r.contexts[k].id;
    }
    assert OwnerInv(r, |q.workers|, q.nextContext);
  }

  lemma {:induction false} EndKeepsRest(p: Pool, w: nat, q: Pool)
    requires Inv(p) && TurnEnds(p, w, q)
    ensures RestInv(q)
  {
    EndKeepsWorkers(p, w, q);
    EndKeepsBusy(p, w, q);
    EndKeepsOwners(p, w, q);
    hide OwnersInv, WorkersInv, BusyInv, QueueInv, Frees;
    EndKeepsLog(p, w, q);
  }

  lemma {:induction false} EndKeepsLog(p: Pool, w: nat, q: Pool)
    requires Inv(p) && TurnEnds(p, w, q)
    ensures LogInv(q) && ReleaseInv(q)
  {
    hide OwnersInv, WorkersInv, BusyInv, QueueInv, LogInv, Frees;
    LogCarries(p, q);
  }

  lemma {:induction false} FinishKeeps(p: Pool, w: nat)
    requires Inv(p) && CanFinish(p, w)
    ensures p.workers[w].owner in p.owners && p.owners[p.workers[w].owner].running > 0
    ensures Position(p.owners[p.workers[w].owner].contexts, p.workers[w].context).Some?
    ensures Inv(Finish(p, w))
  {
    hide Inv, TurnEnds, OwnerInv, Schedule;
    FinishRefs(p, w);
    var m := p.workers[w].owner;
    var o := p.owners[m];
    var c := Position(o.contexts, p.workers[w].context).value;
    if o.jobs == [] && |o.contexts| > 1 {
      RetireEnds(p, w, m, o, c);
      RetireKeeps(p, w, Finish(p, w));
    } else {
      var idle := o.contexts[c := Context(o.contexts[c].id, false)];
      SettleEnds(p, w, m, o, c);
      SettleKeeps(p, w, Settled(SetContexts(p, m, idle), w, m), c);
    }
  }

  lemma {:induction false} FinishRefs(p: Pool, w: nat)
    requires Inv(p) && CanFinish(p, w)
    ensures p.workers[w].owner in p.owners && p.owners[p.workers[w].owner].running > 0
    ensures Position(p.owners[p.workers[w].owner].contexts, p.workers[w].context).Some?
    ensures OwnerInv(p.owners[p.workers[w].owner], |p.workers|, p.nextContext)
  {
    WorkerRefs(p, w);
  }

  lemma {:induction false} RetireEnds(p: Pool, w: nat, m: Module, o: Owner, c: nat)
    requires w < |p.workers| && p.workers[w].Running? && p.workers[w].owner == m && m in p.owners && p.owners[m] == o
    requires OwnerInv(o, |p.workers|, p.nextContext) && o.running > 0
    requires c < |o.contexts| && |o.contexts| > 1 && o.contexts[c].id == p.workers[w].context
    ensures TurnEnds(p, w, SetContexts(p, m, o.contexts[..c] + o.contexts[c + 1..]).(workers := p.workers[w := Retiring(m)]))
  {
    hide Frees;
    RetiringFrees(o.contexts, c);
  }

  lemma {:induction false} SettleEnds(p: Pool, w: nat, m: Module, o: Owner, c: nat)
    requires w < |p.workers| && p.workers[w].Running? && p.workers[w].owner == m && m in p.owners && p.owners[m] == o
    requires OwnerInv(o, |p.workers|, p.nextContext) && o.running > 0
    requires c < |o.contexts| && o.contexts[c].id == p.workers[w].context
    ensures TurnEnds(p, w, Settled(SetContexts(p, m, o.contexts[c := Context(o.contexts[c].id, false)]), w, m))
  {
    hide Frees;
    IdlingFrees(o.contexts, c);
  }

  lemma {:induction false} RetireKeeps(p: Pool, w: nat, q: Pool)
    requires Inv(p) && TurnEnds(p, w, q) && p.owners[p.workers[w].owner].jobs == []
    ensures Inv(q)
  {
    EndKeepsRest(p, w, q);
    QueueStands(p, q, p.workers[w].owner);
    InvParts(q);
  }

  lemma {:induction false} SettleKeeps(p: Pool, w: nat, q: Pool, c: nat)
    requires Inv(p) && TurnEnds(p, w, q)
    requires c < |p.owners[p.workers[w].owner].contexts|
    requires q.owners[p.workers[w].owner].contexts ==
             p.owners[p.workers[w].owner].contexts[c := Context(p.owners[p.workers[w].owner].contexts[c].id, false)]
    ensures Inv(Schedule(q, p.workers[w].owner))
  {
    var m := p.workers[w].owner;
    EndKeepsRest(p, w, q);
    assert !q.owners[m].contexts[c].busy;
    QueueLoosens(p, q, m);
    hide Frees, RestInv, QueueBut, QueueInv, WorkersInv;
    ScheduleKeeps(q, m);
  }

  /** An owner without jobs is not queued, whatever happens to its contexts. */
  lemma {:induction false} QueueStands(p: Pool, q: Pool, m: Module)
    requires QueueInv(p) && m in p.owners && p.owners[m].jobs == []
    requires q.ready == p.ready && m in q.owners && q.owners == p.owners[m := q.owners[m]]
    requires q.owners[m].jobs == [] && q.owners[m].ready == p.owners[m].ready
    ensures QueueInv(q)
  {}

  /** An owner whose idle contexts only grow stays servable if it was. */
  lemma {:induction false} QueueLoosens(p: Pool, q: Pool, m: Module)
    requires QueueInv(p) && m in p.owners
    requires q.ready == p.ready && m in q.owners && q.owners == p.owners[m := q.owners[m]]
    requires q.owners[m].ready == p.owners[m].ready
    requires Servable(p.owners[m]) ==> Servable(q.owners[m])
    ensures QueueBut(q, m)
  {}

  lemma {:induction false} ResumeKeeps(p: Pool, w: nat)
    requires Inv(p) && CanResume(p, w)
    ensures p.workers[w].owner in p.owners && p.owners[p.workers[w].owner].running > 0
    ensures Inv(Resume(p, w))
  {
    WorkerRefs(p, w);
    var m := p.workers[w].owner;
    var q := Settled(p, w, m);
    forall n <- q.owners ensures q.owners[n].running == |Servers(q.workers, n)| {
      ServersChange(p.workers, w, Waiting, n);
    }
    hide QueueInv, QueueBut, RestInv;
    ResumeWorkers(p, w, q);
    ResumeRest(p, w, q);
    QueueLoosens(p, q, m);
    ScheduleKeeps(q, m);
  }

  lemma {:induction false} ResumeWorkers(p: Pool, w: nat, q: Pool)
    requires Inv(p) && w < |p.workers| && p.workers[w].Retiring? && q.workers == p.workers[w := Waiting]
    requires q.owners.Keys == p.owners.Keys
    requires forall n <- p.owners :: q.owners[n].contexts == p.owners[n].contexts
    requires forall n <- q.owners :: q.owners[n].running == |Servers(q.workers, n)|
    ensures WorkersInv(q) && BusyInv(q)
  {
    forall n <- q.owners, k | 0 <= k < |q.owners[n].contexts| && q.owners[n].contexts[k].busy
      ensures Held(q.workers, n, q.owners[n].contexts[k].id)
    {
      assert p.owners[n].contexts[k].busy;
      StillHeld(p.workers, w, Waiting, n, p.owners[n].contexts[k].id);
    }
    forall v | 0 <= v < |q.workers| && q.workers[v].Running?
      ensures HasContext(q.owners[q.workers[v].owner], q.workers[v].context, true)
    {
      assert HasContext(p.owners[p.workers[v].owner], p.workers[v].context, true);
    }
  }

  lemma {:induction false} ResumeRest(p: Pool, w: nat, q: Pool)
    requires Inv(p) && w < |p.workers| && p.workers[w].Retiring? && p.workers[w].owner in p.owners
    requires p.owners[p.workers[w].owner].running > 0 && q == Settled(p, w, p.workers[w].owner)
    ensures OwnersInv(q) && LogInv(q) && ReleaseInv(q)
  {
    hide WorkersInv, BusyInv, QueueInv, LogInv;
    LogCarries(p, q);
    forall n <- q.owners ensures OwnerInv(q.owners[n], |q.workers|, q.nextContext) {
      assert OwnerInv(p.owners[n], |p.workers|, p.nextContext);
    }
  }

  // ---------------------------------------------------------------- submission

  lemma {:induction false} StartedKeeps(p: Pool, started: nat)
    requires Inv(p)
    ensures Inv(Started(p, started))
  {
    if p.workers == [] {
      assert p.owners == map[];
      hide LogInv;
      LogCarries(p, Started(p, started));
      hide SameJobs;
    }
  }

  lemma {:induction false} OpenedKeeps(q: Pool, m: Module)
    requires Inv(q) && m !in q.halted && q.workers != []
    ensures Inv(Opened(q, m))
  {
    hide LogInv, WorkersInv, BusyInv, QueueInv, OwnersInv;
    if m !in q.owners {
      var r := Opened(q, m);
      NewQueue(q, m, r);
      NewWorkers(q, m, r);
      NewOwners(q, m, r);
      LogCarries(q, r);
    }
  }

  lemma {:induction false} NewOwners(q: Pool, m: Module, r: Pool)
    requires OwnersInv(q) && m !in q.owners && r == q.(owners := q.owners[m := Owner([], [], 0, false, false)])
    ensures OwnersInv(r)
  {}

  lemma {:induction false} NewQueue(q: Pool, m: Module, r: Pool)
    requires QueueInv(q) && m !in q.owners && r == q.(owners := q.owners[m := Owner([], [], 0, false, false)])
    ensures QueueInv(r)
  {}

  lemma {:induction false} NewWorkers(q: Pool, m: Module, r: Pool)
    requires WorkersInv(q) && BusyInv(q) && m !in q.owners && r == q.(owners := q.owners[m := Owner([], [], 0, false, false)])
    ensures WorkersInv(r) && BusyInv(r)
  {
    hide Held;
    assert Servers(q.workers, m) == {} by {
      forall w: nat | w < |q.workers| ensures !Serves(q.workers[w], m) {}
    }
  }

  lemma {:induction false} GrowKeeps(p: Pool, m: Module)
    requires Inv(p) && m in p.owners && |p.owners[m].contexts| < |p.workers|
    ensures RestInv(Grown(p, m)) && QueueBut(Grown(p, m), m)
  {
    GrowQueue(p, m);
    GrowWorkers(p, m, Grown(p, m));
    GrowRest(p, m, Grown(p, m));
  }

  lemma {:induction false} GrowQueue(p: Pool, m: Module)
    requires QueueInv(p) && m in p.owners
    ensures QueueBut(Grown(p, m), m)
  {
    var grown := Grown(p, m).owners[m].contexts;
    assert !grown[|grown| - 1].busy;
  }

  lemma {:induction false} GrowWorkers(p: Pool, m: Module, q: Pool)
    requires Inv(p) && m in p.owners && m in q.owners && q.owners == p.owners[m := q.owners[m]] && q.workers == p.workers
    requires q.owners[m] == p.owners[m].(contexts := p.owners[m].contexts + [Context(p.nextContext, false)])
    ensures WorkersInv(q) && BusyInv(q)
  {
    hide OwnersInv, QueueInv, LogInv, ReleaseInv, Held;
    forall n <- q.owners, k | 0 <= k < |q.owners[n].contexts| && q.owners[n].contexts[k].busy
      ensures Held(q.workers, n, q.owners[n].contexts[k].id)
    {
      assert p.owners[n].contexts[k].busy;
    }
    forall v | 0 <= v < |q.workers| && q.workers[v].Running?
      ensures HasContext(q.owners[q.workers[v].owner], q.workers[v].context, true)
    {
      var n := p.workers[v].owner;
      var k :| 0 <= k < |p.owners[n].contexts| && p.owners[n].contexts[k] == Context(p.workers[v].context, true);
      assert q.owners[n].contexts[k] == p.owners[n].contexts[k];
    }
  }

  lemma {:induction false} GrowRest(p: Pool, m: Module, q: Pool)
    requires Inv(p) && m in p.owners && |p.owners[m].contexts| < |p.workers|
    requires q == Grown(p, m)
    ensures OwnersInv(q) && LogInv(q) && ReleaseInv(q)
  {
    hide WorkersInv, BusyInv, QueueInv, LogInv;
    forall n <- q.owners ensures OwnerInv(q.owners[n], |q.workers|, q.nextContext) {
      assert OwnerInv(p.owners[n], |p.workers|, p.nextContext);
    }
    LogCarries(p, q);
  }

  lemma {:induction false} EnqueueKeeps(p: Pool, m: Module, job: Job)
    requires RestInv(p) && QueueBut(p, m) && m in p.owners && m !in p.releases && p.owners[m].contexts != []
    ensures Inv(Enqueue(p, m, job))
  {
    hide QueueBut, OwnersInv, WorkersInv, BusyInv, LogInv, ReleaseInv, Inv, Schedule;
    var q := Accepted(p, m, job);
    EnqueueQueue(p, m, job, q);
    EnqueueRest(p, m, job, q);
    ContextsCarry(p, q);
    ScheduleKeeps(q, m);
  }

  lemma {:induction false} EnqueueQueue(p: Pool, m: Module, job: Job, q: Pool)
    requires QueueBut(p, m) && m in p.owners && q.ready == p.ready
    requires q.owners == p.owners[m := p.owners[m].(jobs := p.owners[m].jobs + [job])]
    ensures QueueBut(q, m)
  {}

  lemma {:induction false} EnqueueRest(p: Pool, m: Module, job: Job, q: Pool)
    requires RestInv(p) && m in p.owners && m !in p.releases && p.owners[m].contexts != []
    requires q == Accepted(p, m, job)
    ensures OwnersInv(q) && LogInv(q) && ReleaseInv(q) && q.workers != []
  {
    hide WorkersInv, BusyInv, LogInv;
    forall n <- q.owners ensures OwnerInv(q.owners[n], |q.workers|, q.nextContext) {
      assert OwnerInv(p.owners[n], |p.workers|, p.nextContext);
    }
    AcceptedLogged(p, m, job, q);
  }

  lemma {:induction false} AcceptedLogged(p: Pool, m: Module, job: Job, q: Pool)
    requires LogInv(p) && m in p.owners
    requires q.owners == p.owners[m := p.owners[m].(jobs := p.owners[m].jobs + [job])]
    requires q.log == p.log.(accepted := p.log.accepted[m := Listed(p.log.accepted, m) + [job]])
    ensures LogInv(q)
  {
    var jobs, taken := p.owners[m].jobs, Listed(p.log.taken, m);
    assert Listed(p.log.accepted, m) == taken + jobs;
    assert taken + jobs + [job] == taken + (jobs + [job]);
  }

  lemma {:induction false} SubmitKeeps(p: Pool, m: Module, job: Job, started: nat, created: bool)
    requires Inv(p)
    ensures Inv(Submit(p, m, job, started, created).0)
  {
    hide Inv, Enqueue;
    if !p.stopping && m !in p.halted && m !in p.disabled {
      StartedKeeps(p, started);
      if Started(p, started).workers != [] {
        OpenedKeeps(Started(p, started), m);
        SubmitOpen(Opened(Started(p, started), m), m, job);
      }
    }
  }

  lemma {:induction false} SubmitOpen(r: Pool, m: Module, job: Job)
    requires Inv(r) && m in r.owners && m !in r.halted && r.workers != []
    ensures Inv(Enqueue(if WantsContext(r, m) then Grown(r, m) else r, m, job))
  {
    assert OwnerInv(r.owners[m], |r.workers|, r.nextContext);
    assert m !in r.releases;
    if WantsContext(r, m) {
      GrowKeeps(r, m);
    } else {
      InvParts(r);
      QueueParts(r, m);
    }
    hide QueueBut, RestInv, Enqueue, Inv;
    EnqueueKeeps(if WantsContext(r, m) then Grown(r, m) else r, m, job);
  }

  lemma {:induction false} QueueParts(p: Pool, m: Module)
    requires QueueInv(p)
    ensures QueueBut(p, m)
  {}

  // ---------------------------------------------------------------- draining and releasing

  lemma {:induction false} CloseKeeps(p: Pool, m: Module)
    requires Inv(p)
    ensures Inv(Close(p, m))
  {
    hide LogInv, WorkersInv, BusyInv, OwnersInv, ReleaseInv, QueueInv;
    if m in p.owners {
      var q := Close(p, m);
      ContextsCarry(p, q);
      LogCarries(p, q);
      OwnersCarry(p, q);
      CloseQueue(p, m, q);
    }
  }

  lemma {:induction false} CloseQueue(p: Pool, m: Module, q: Pool)
    requires QueueInv(p) && m in p.owners && q == Close(p, m)
    ensures QueueInv(q)
  {}

  lemma {:induction false} BeginReleaseKeeps(p: Pool, m: Module)
    requires Inv(p) && m !in p.releases
    ensures Inv(Close(p.(halted := p.halted + {m}, releases := p.releases[m := Draining]), m))
  {
    hide LogInv, WorkersInv, BusyInv, QueueInv;
    var h := Close(p, m);
    CloseKeeps(p, m);
    var q := Close(p.(halted := p.halted + {m}, releases := p.releases[m := Draining]), m);
    assert q == h.(halted := q.halted, releases := q.releases);
    SameButFlags(h, q);
  }

  /** The module flags, the pool flag and the release table only matter to the release invariant. */
  lemma {:induction false} SameButFlags(p: Pool, q: Pool)
    requires q == p.(halted := q.halted, disabled := q.disabled, stopping := q.stopping, releases := q.releases)
    ensures QueueInv(p) ==> QueueInv(q)
    ensures OwnersInv(p) ==> OwnersInv(q)
    ensures WorkersInv(p) ==> WorkersInv(q)
    ensures BusyInv(p) ==> BusyInv(q)
    ensures LogInv(p) ==> LogInv(q)
  {}

  /** A drained owner has no job waiting, so it is not queued, and no worker, so none refers to it. */
  lemma {:induction false} DrainedIsUnreferenced(p: Pool, m: Module)
    requires Inv(p) && DrainDone(p, m)
    ensures m !in p.ready
    ensures forall w :: 0 <= w < |p.workers| ==> !Serves(p.workers[w], m)
  {
    forall w | 0 <= w < |p.workers| ensures !Serves(p.workers[w], m) {
      if Serves(p.workers[w], m) { WorkerRefs(p, w); }
    }
  }

  lemma {:induction false} EraseKeeps(p: Pool, m: Module)
    requires Inv(p) && m in p.releases && p.releases[m].Drained?
    ensures Inv(Erase(p, m))
  {
    DrainedIsUnreferenced(p, m);
    EraseOwners(p, m, Erase(p, m));
    EraseLog(p, m);
    hide QueueInv, OwnersInv, WorkersInv, BusyInv, LogInv, ReleaseInv;
    assert p.workers == [] ==> Erase(p, m).owners == map[];
  }

  lemma {:induction false} EraseLog(p: Pool, m: Module)
    requires LogInv(p) && ReleaseInv(p) && m in p.releases && p.releases[m].Drained?
    ensures LogInv(Erase(p, m)) && ReleaseInv(Erase(p, m))
  {
    hide LogInv;
    LogCarries(p, Erase(p, m));
  }

  lemma {:induction false} EraseOwners(p: Pool, m: Module, q: Pool)
    requires Inv(p) && q == Erase(p, m) && m !in p.ready
    requires forall w :: 0 <= w < |p.workers| ==> !Serves(p.workers[w], m)
    ensures QueueInv(q) && OwnersInv(q) && WorkersInv(q) && BusyInv(q)
  {
    hide LogInv, ReleaseInv, Held;
    forall w | 0 <= w < |q.workers| && q.workers[w].Running?
      ensures q.workers[w].owner in q.owners && HasContext(q.owners[q.workers[w].owner], q.workers[w].context, true)
    {
      assert !Serves(p.workers[w], m);
    }
  }

  lemma {:induction false} ExitKeeps(p: Pool, w: nat)
    requires Inv(p) && w < |p.workers| && p.workers[w].Waiting?
    ensures Inv(p.(workers := p.workers[w := Exited]))
  {
    var q := p.(workers := p.workers[w := Exited]);
    hide LogInv, WorkersInv, BusyInv;
    ExitWorkers(p, w, q);
    LogCarries(p, q);
    hide SameJobs;
  }

  lemma {:induction false} ExitWorkers(p: Pool, w: nat, q: Pool)
    requires WorkersInv(p) && BusyInv(p) && w < |p.workers| && p.workers[w].Waiting? && q == p.(workers := p.workers[w := Exited])
    ensures WorkersInv(q) && BusyInv(q)
  {
    hide Held;
    forall n <- q.owners ensures q.owners[n].running == |Servers(q.workers, n)| {
      ServersChange(p.workers, w, Exited, n);
    }
    forall n <- q.owners, k | 0 <= k < |q.owners[n].contexts| && q.owners[n].contexts[k].busy
      ensures Held(q.workers, n, q.owners[n].contexts[k].id)
    {
      StillHeld(p.workers, w, Exited, n, q.owners[n].contexts[k].id);
    }
  }

  // ---------------------------------------------------------------- runs

  lemma {:induction false} StepKeeps(p: Pool, a: Action)
    requires Inv(p)
    ensures Inv(Step(p, a))
  {
    hide QueueInv, OwnersInv, WorkersInv, BusyInv, LogInv, Submit, Take, Finish, Resume;
    match a
    case SubmitJob(m, job, started, created) => SubmitKeeps(p, m, job, started, created);
    case TakeJob(w) => if CanTake(p, w) { TakeKeeps(p, w); }
    case FinishJob(w) => if CanFinish(p, w) { FinishKeeps(p, w); }
    case ResumeWorker(w) => if CanResume(p, w) { ResumeKeeps(p, w); }
    case DrainOwner(m) => CloseKeeps(p, m);
    case Halt(m) => SameButFlags(p, Step(p, a));
    case Disable(m) => SameButFlags(p, Step(p, a));
    case BeginRelease(m) => if m !in p.releases { BeginReleaseKeeps(p, m); }
    case EndDrain(m) => SameButFlags(p, Step(p, a));
    case EraseOwner(m) => if m in p.releases && p.releases[m].Drained? { EraseKeeps(p, m); }
    case Stop => SameButFlags(p, Step(p, a));
    case Exit(w) => if p.stopping && w < |p.workers| && p.workers[w].Waiting? { ExitKeeps(p, w); }
  }

  /** The state after a sequence of transitions: any interleaving of the threads. */
  function Run(p: Pool, actions: seq<Action>): (q: Pool)
    requires Inv(p)
    ensures Inv(q)
  {
    if actions == [] then p
    else
      var q := Run(p, actions[..|actions| - 1]);
      StepKeeps(q, actions[|actions| - 1]);
      Step(q, actions[|actions| - 1])
  }

  /**
   The pool invariant in every run, whenever the lock is free: an owner's ready flag holds exactly when it
   is in the ready queue, where it is once, and exactly when it has a job and an idle context; so what a
   worker dereferences is there. Contexts never outnumber workers, and a waiting job is never stranded.
   */
  lemma {:induction false} PoolAlwaysConsistent(actions: seq<Action>)
    ensures var p := Run(EMPTY, actions);
            && (forall i, j :: 0 <= i < j < |p.ready| ==> p.ready[i] != p.ready[j])
            && (forall m <- p.ready :: m in p.owners && p.owners[m].jobs != [] && Available(p.owners[m].contexts).Some?)
            && (forall m <- p.owners ::
                  && (p.owners[m].ready <==> m in p.ready)
                  && (p.owners[m].ready <==> p.owners[m].jobs != [] && exists c <- p.owners[m].contexts :: !c.busy)
                  && |p.owners[m].contexts| <= |p.workers|
                  && (p.owners[m].jobs != [] ==> p.owners[m].ready || p.owners[m].running > 0))
            && (forall w <- p.workers :: (w.Running? || w.Retiring?) ==> w.owner in p.owners)
  {
    var p := Run(EMPTY, actions);
    forall m <- p.owners
      ensures Available(p.owners[m].contexts).Some? <==> exists c <- p.owners[m].contexts :: !c.busy
      ensures p.owners[m].jobs != [] ==> p.owners[m].ready || p.owners[m].running > 0
      ensures |p.owners[m].contexts| <= |p.workers|
    {
      IdleOrRunning(p, m);
    }
    forall w <- p.workers ensures (w.Running? || w.Retiring?) ==> w.owner in p.owners {
      var k :| 0 <= k < |p.workers| && p.workers[k] == w;
    }
  }

  lemma {:induction false} IdleOrRunning(p: Pool, m: Module)
    requires Inv(p) && m in p.owners
    ensures Available(p.owners[m].contexts).Some? <==> exists c <- p.owners[m].contexts :: !c.busy
    ensures p.owners[m].jobs != [] ==> p.owners[m].ready || p.owners[m].running > 0
    ensures |p.owners[m].contexts| <= |p.workers|
  {
    var o := p.owners[m];
    assert OwnerInv(o, |p.workers|, p.nextContext);
    if Available(o.contexts).Some? {
      assert o.contexts[Available(o.contexts).value] in o.contexts;
    }
    if o.jobs != [] && !o.ready {
      assert o.contexts[0].busy;
      var w :| 0 <= w < |p.workers| && p.workers[w].Running? && p.workers[w].owner == m && p.workers[w].context == o.contexts[0].id;
      WorkerRefs(p, w);
    }
  }

  // ---------------------------------------------------------------- order of service

  /** Everything ever queued, in order: the owners served so far, then the ready queue. */
  function Queued(p: Pool): seq<Module>
  {
    p.log.served + p.ready
  }

  /** Later states extend what was queued, what was accepted and what was taken; nothing is reordered or lost. */
  ghost predicate Extends(p: Pool, q: Pool)
  {
    && Queued(p) <= Queued(q) && p.log.served <= q.log.served
    && forall m :: Listed(p.log.accepted, m) <= Listed(q.log.accepted, m) && Listed(p.log.taken, m) <= Listed(q.log.taken, m)
  }

  lemma {:induction false} ScheduleExtends(p: Pool, m: Module)
    requires m in p.owners
    ensures Extends(p, Schedule(p, m))
  {}

  lemma {:induction false} ExtendsTransitive(p: Pool, q: Pool, r: Pool)
    requires Extends(p, q) && Extends(q, r)
    ensures Extends(p, r)
  {}

  lemma {:induction false} TakeExtends(p: Pool, w: nat)
    requires CanTake(p, w) && p.ready[0] in p.owners && Servable(p.owners[p.ready[0]])
    ensures Extends(p, Take(p, w)) && Take(p, w).releases == p.releases
    ensures Take(p, w).log.served == p.log.served + [p.ready[0]]
    ensures Take(p, w).log.accepted == p.log.accepted
    ensures Take(p, w).log.taken == p.log.taken[p.ready[0] := Listed(p.log.taken, p.ready[0]) + [p.owners[p.ready[0]].jobs[0]]]
  {
    hide Available;
    assert p.ready == [p.ready[0]] + p.ready[1..];
    var q := Taken(p, w);
    assert q.log.served == p.log.served + [p.ready[0]];
    assert Queued(q) == Queued(p);
    ScheduleExtends(q, p.ready[0]);
    ExtendsTransitive(p, q, Take(p, w));
  }

  lemma {:induction false} FinishExtends(p: Pool, w: nat)
    requires CanFinish(p, w) && p.workers[w].owner in p.owners && p.owners[p.workers[w].owner].running > 0
    requires Position(p.owners[p.workers[w].owner].contexts, p.workers[w].context).Some?
    ensures Extends(p, Finish(p, w)) && Finish(p, w).log == p.log && Finish(p, w).releases == p.releases
  {
    hide Position, Available;
  }

  lemma {:induction false} ResumeExtends(p: Pool, w: nat)
    requires CanResume(p, w) && p.workers[w].owner in p.owners && p.owners[p.workers[w].owner].running > 0
    ensures Extends(p, Resume(p, w)) && Resume(p, w).log == p.log && Resume(p, w).releases == p.releases
  {
    hide Available;
  }

  lemma {:induction false} TakeRefs(p: Pool, w: nat)
    requires Inv(p) && CanTake(p, w)
    ensures p.ready[0] in p.owners && Servable(p.owners[p.ready[0]])
  {}

  lemma {:induction false} EnqueueExtends(p: Pool, m: Module, job: Job)
    requires m in p.owners
    ensures Extends(p, Enqueue(p, m, job)) && Enqueue(p, m, job).releases == p.releases
    ensures Enqueue(p, m, job).log == p.log.(accepted := p.log.accepted[m := Listed(p.log.accepted, m) + [job]])
  {
    ScheduleExtends(Accepted(p, m, job), m);
    ExtendsTransitive(p, Accepted(p, m, job), Enqueue(p, m, job));
  }

  lemma {:induction false} SubmitExtends(p: Pool, m: Module, job: Job, started: nat, created: bool)
    ensures var (q, accepted) := Submit(p, m, job, started, created);
            && Extends(p, q) && q.releases == p.releases
            && q.log == if accepted then p.log.(accepted := p.log.accepted[m := Listed(p.log.accepted, m) + [job]]) else p.log
  {
    hide Enqueue;
    var q := Started(p, started);
    if !p.stopping && m !in p.halted && m !in p.disabled && q.workers != [] {
      var r := Opened(q, m);
      var g := if WantsContext(r, m) then Grown(r, m) else r;
      assert g.ready == p.ready && g.log == p.log;
      EnqueueExtends(g, m, job);
      ExtendsTransitive(p, g, Enqueue(g, m, job));
    }
  }

  lemma {:induction false} StepExtends(p: Pool, a: Action)
    requires Inv(p)
    ensures Extends(p, Step(p, a))
    ensures if a.TakeJob? && CanTake(p, a.w) then Step(p, a).log.served == p.log.served + [p.ready[0]]
            else Step(p, a).log.served == p.log.served && Step(p, a).log.taken == p.log.taken
    ensures forall m <- p.releases :: p.releases[m].Erased? ==> m in Step(p, a).releases && Step(p, a).releases[m].Erased?
  {
    hide Inv, Submit, Take, Finish, Resume, CanTake, CanFinish, CanResume, DrainDone, Extends;
    match a
    case SubmitJob(m, job, started, created) => SubmitExtends(p, m, job, started, created);
    case TakeJob(w) => if CanTake(p, w) { TakeRefs(p, w); TakeExtends(p, w); } else { NothingExtends(p); }
    case FinishJob(w) => if CanFinish(p, w) { FinishKeeps(p, w); FinishExtends(p, w); } else { NothingExtends(p); }
    case ResumeWorker(w) => if CanResume(p, w) { ResumeKeeps(p, w); ResumeExtends(p, w); } else { NothingExtends(p); }
    case _ => OtherExtends(p, a);
  }

  lemma {:induction false} NothingExtends(p: Pool)
    ensures Extends(p, p)
  {}

  /** Steps that neither queue nor serve. */
  lemma {:induction false} OtherExtends(p: Pool, a: Action)
    requires Inv(p) && !a.SubmitJob? && !a.TakeJob? && !a.FinishJob? && !a.ResumeWorker?
    ensures Extends(p, Step(p, a)) && Step(p, a).log == p.log
    ensures forall m <- p.releases :: p.releases[m].Erased? ==> m in Step(p, a).releases && Step(p, a).releases[m].Erased?
  {
    hide Inv, DrainDone;
  }

  lemma {:induction false} RunExtends(p: Pool, actions: seq<Action>)
    requires Inv(p)
    ensures Extends(p, Run(p, actions))
  {
    if actions != [] {
      var q := Run(p, actions[..|actions| - 1]);
      RunExtends(p, actions[..|actions| - 1]);
      StepExtends(q, actions[|actions| - 1]);
      ExtendsTransitive(p, q, Run(p, actions));
    }
  }

  /**
   An owner at position `k` of the ready queue is served after exactly `k` other dequeues: until then it is
   queued `k` minus the dequeues so far, and dequeue number `k` from now serves it.
   */
  lemma {:induction false} ServedInQueueOrder(p: Pool, actions: seq<Action>, k: nat)
    requires Inv(p) && k < |p.ready|
    ensures var q := Run(p, actions);
            var dequeues := |q.log.served| - |p.log.served|;
            && 0 <= dequeues
            && if dequeues <= k then k - dequeues < |q.ready| && q.ready[k - dequeues] == p.ready[k]
               else q.log.served[|p.log.served| + k] == p.ready[k]
  {
    hide Inv, Run;
    RunExtends(p, actions);
    QueuedAhead(p, Run(p, actions), k);
  }

  lemma {:induction false} QueuedAhead(p: Pool, q: Pool, k: nat)
    requires Extends(p, q) && k < |p.ready|
    ensures var dequeues := |q.log.served| - |p.log.served|;
            && 0 <= dequeues
            && if dequeues <= k then k - dequeues < |q.ready| && q.ready[k - dequeues] == p.ready[k]
               else q.log.served[|p.log.served| + k] == p.ready[k]
  {
    var i := |p.log.served| + k;
    assert Queued(p)[i] == p.ready[k] && Queued(q)[i] == Queued(p)[i];
  }

  /** The jobs handed to workers are the accepted jobs of each owner, each once and in submission order. */
  lemma {:induction false} JobsInSubmissionOrder(p: Pool, actions: seq<Action>, m: Module)
    requires Inv(p)
    ensures var q := Run(p, actions);
            && Listed(q.log.taken, m) <= Listed(q.log.accepted, m)
            && Listed(p.log.taken, m) <= Listed(q.log.taken, m)
            && Listed(p.log.accepted, m) <= Listed(q.log.accepted, m)
            && (m !in q.owners ==> Listed(q.log.taken, m) == Listed(q.log.accepted, m))
  {
    RunExtends(p, actions);
  }

  /** A dequeue hands the worker the first accepted job that no worker has had. */
  lemma {:induction false} TakeHandsOutNextJob(p: Pool, w: nat)
    requires Inv(p) && CanTake(p, w)
    ensures var m, q := p.ready[0], Step(p, TakeJob(w));
            var done := |Listed(p.log.taken, m)|;
            && done < |Listed(p.log.accepted, m)|
            && q.workers[w].Running? && q.workers[w].owner == m
            && q.workers[w].job == Listed(p.log.accepted, m)[done]
            && Listed(q.log.taken, m) == Listed(p.log.accepted, m)[..done + 1]
            && Listed(q.log.accepted, m) == Listed(p.log.accepted, m)
  {
    var m := p.ready[0];
    var o := p.owners[m];
    TakeExtends(p, w);
    NextJob(p, m);
    hide Inv, QueueInv, OwnersInv, WorkersInv, BusyInv, LogInv, ReleaseInv;
    assert Take(p, w).workers[w] == Running(m, o.contexts[Available(o.contexts).value].id, o.jobs[0]);
  }

  lemma {:induction false} NextJob(p: Pool, m: Module)
    requires LogInv(p) && m in p.owners && p.owners[m].jobs != []
    ensures var done := |Listed(p.log.taken, m)|;
            && done < |Listed(p.log.accepted, m)| && Listed(p.log.accepted, m)[done] == p.owners[m].jobs[0]
            && Listed(p.log.accepted, m)[..done + 1] == Listed(p.log.taken, m) + [p.owners[m].jobs[0]]
  {
    assert Listed(p.log.accepted, m) == Listed(p.log.taken, m) + p.owners[m].jobs;
  }

  /** A submission appends its job to the accepted ones exactly when it reports success. */
  lemma {:induction false} SubmitAppends(p: Pool, m: Module, job: Job, started: nat, created: bool)
    ensures var (q, accepted) := Submit(p, m, job, started, created);
            && Listed(q.log.accepted, m) == Listed(p.log.accepted, m) + (if accepted then [job] else [])
            && (accepted ==> m in q.owners && q.owners[m].jobs != [] && q.owners[m].jobs[|q.owners[m].jobs| - 1] == job)
  {
    SubmitExtends(p, m, job, started, created);
    hide Enqueue;
    var r := Opened(Started(p, started), m);
    EnqueuedLast(if WantsContext(r, m) then Grown(r, m) else r, m, job);
  }

  lemma {:induction false} EnqueuedLast(p: Pool, m: Module, job: Job)
    requires m in p.owners
    ensures var q := Enqueue(p, m, job);
            m in q.owners && q.owners[m].jobs != [] && q.owners[m].jobs[|q.owners[m].jobs| - 1] == job
  {
    hide Available;
  }

  // ---------------------------------------------------------------- released owners

  lemma {:induction false} ErasedStays(p: Pool, actions: seq<Action>, m: Module)
    requires Inv(p) && m in p.releases && p.releases[m].Erased?
    ensures m in Run(p, actions).releases && Run(p, actions).releases[m].Erased?
  {
    if actions != [] {
      ErasedStays(p, actions[..|actions| - 1], m);
      StepExtends(Run(p, actions[..|actions| - 1]), actions[|actions| - 1]);
    }
  }

  /**
   Once `Tasks_Release_Owner` has erased an owner, in every later state it has no entry, no queue entry and
   no worker, and every submission for its module is refused; by then all its accepted jobs had been taken.
   */
  lemma {:induction false} ReleasedIsGone(p: Pool, actions: seq<Action>, m: Module, job: Job, started: nat, created: bool)
    requires Inv(p) && m in p.releases && p.releases[m].Drained?
    ensures Inv(Step(p, EraseOwner(m)))
    ensures var q := Run(Step(p, EraseOwner(m)), actions);
            && m !in q.owners && m !in q.ready
            && (forall w :: 0 <= w < |q.workers| ==> !Serves(q.workers[w], m))
            && !Submit(q, m, job, started, created).1
            && Listed(q.log.taken, m) == Listed(q.log.accepted, m)
  {
    StepKeeps(p, EraseOwner(m));
    var r := Step(p, EraseOwner(m));
    ErasedStays(r, actions, m);
    var q := Run(r, actions);
    DrainedIsUnreferenced(q, m);
  }
}
