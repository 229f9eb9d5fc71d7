/**
 The worker pool of client/src/tasks.cpp in its own form: one object whose fields the critical sections
 change in place. Each method is the code between acquiring the lock and releasing it, and is proved to
 be the transition of the same name.
 */
module TaskPoolThreads {
  import opened Machine
  import opened Options
  import opened TaskPool

  class Threads {
    var owners: map<Module, Owner>
    var ready: seq<Module>
    var workers: seq<Worker>
    var stopping: bool
    var halted: set<Module>
    var disabled: set<Module>
    var releases: map<Module, Release>
    var nextContext: nat
    ghost var log: Log

    constructor ()
      ensures State() == EMPTY && Inv(State())
    {
      owners, ready, workers, stopping := map[], [], [], false;
      halted, disabled, releases, nextContext := {}, {}, map[], 0;
      log := Log(map[], map[], []);
    }

    ghost function State(): Pool
      reads this
    {
      Pool(owners, ready, workers, stopping, halted, disabled, releases, nextContext, log)
    }

    /** `Available_Context`: scan for a context that is not busy. */
    static method FindAvailable(contexts: seq<Context>) returns (found: Option<nat>)
      ensures found == Available(contexts)
    {
      for k := 0 to |contexts|
        invariant Available(contexts) == match Available(contexts[k..]) case None => None case Some(n) => Some(n + k)
      {
        assert contexts[k..][1..] == contexts[k + 1..];
        if !contexts[k].busy { return Some(k); }
      }
      return None;
    }

    /** The `find_if` of the retire path. */
    static method FindContext(contexts: seq<Context>, id: nat) returns (found: Option<nat>)
      ensures found == Position(contexts, id)
    {
      for k := 0 to |contexts|
        invariant Position(contexts, id) == match Position(contexts[k..], id) case None => None case Some(n) => Some(n + k)
      {
        assert contexts[k..][1..] == contexts[k + 1..];
        if contexts[k].id == id { return Some(k); }
      }
      return None;
    }

    method ScheduleOwner(m: Module)
      requires m in owners
      modifies this`owners, this`ready
      ensures State() == Schedule(old(State()), m)
    {
      var owner := owners[m];
      if !owner.ready && owner.jobs != [] {
        var context := FindAvailable(owner.contexts);
        if context.Some? {
          owners := owners[m := owner.(ready := true)];
          ready := ready + [m];
        }
      }
    }

    /** The top of the worker loop, once its wait has ended. */
    method WorkerTake(w: nat) returns (job: Job)
      requires Inv(State()) && CanTake(State(), w)
      modifies this
      ensures State() == Step(old(State()), TakeJob(w)) && Inv(State())
      ensures w < |workers| && workers[w].Running? && workers[w].job == job
    {
      hide Inv, Available, Schedule, Take;
      ghost var was := State();
      TakeRefs(was, w);
      TakeKeeps(was, w);
      var m := ready[0];
      var owner := owners[m];
      ready := ready[1..];
      var found := FindAvailable(owner.contexts);
      var c := found.value;
      job := owner.jobs[0];
      log := log.(taken := log.taken[m := Listed(log.taken, m) + [job]], served := log.served + [m]);
      owners := owners[m := Owner(owner.contexts[c := Context(owner.contexts[c].id, true)], owner.jobs[1..],
                                  owner.running + 1, owner.closing, false)];
      workers := workers[w := Running(m, owner.contexts[c].id, job)];
      assert State() == Taken(was, w);
      ScheduleOwner(m);
      TakeSteps(was, w);
    }

    /** After the job: free the context, and retire it if no job is waiting and others remain. */
    method WorkerFinish(w: nat)
      requires Inv(State()) && CanFinish(State(), w)
      modifies this
      ensures State() == Step(old(State()), FinishJob(w)) && Inv(State())
    {
      hide Inv, Position, Schedule;
      ghost var was := State();
      FinishKeeps(was, w);
      FinishSteps(was, w);
      var m := workers[w].owner;
      var owner := owners[m];
      var found := FindContext(owner.contexts, workers[w].context);
      var c := found.value;
      if owner.jobs == [] && |owner.contexts| > 1 {
        owners := owners[m := owner.(contexts := owner.contexts[..c] + owner.contexts[c + 1..])];
        workers := workers[w := Retiring(m)];
        return;
      }
      owner := owner.(contexts := owner.contexts[c := Context(owner.contexts[c].id, false)]);
      owners := owners[m := owner.(running := owner.running - 1)];
      workers := workers[w := Waiting];
      assert State() == Settled(SetContexts(was, m, owner.contexts), w, m);
      ScheduleOwner(m);
    }

    /** Back under the lock after destroying a retired context. */
    method WorkerResume(w: nat)
      requires Inv(State()) && CanResume(State(), w)
      modifies this
      ensures State() == Step(old(State()), ResumeWorker(w)) && Inv(State())
    {
      hide Inv, Schedule, Min;
      ghost var was := State();
      ResumeKeeps(was, w);
      ResumeSteps(was, w);
      var m := workers[w].owner;
      owners := owners[m := owners[m].(running := owners[m].running - 1)];
      workers := workers[w := Waiting];
      assert State() == Settled(was, w, m);
      ScheduleOwner(m);
    }

    /** `starts` says of each processor whether its worker thread starts; the first failure ends the loop. */
    method StartWorkers(starts: seq<bool>) returns (ghost started: nat)
      requires workers == []
      modifies this`workers
      ensures State() == Started(old(State()), started) && started <= |starts|
      ensures forall k :: 0 <= k < started ==> starts[k]
      ensures started < |starts| ==> !starts[started]
    {
      started := 0;
      for k := 0 to |starts|
        invariant started == k && workers == seq(k, _ => Waiting)
        invariant forall j :: 0 <= j < k ==> starts[j]
      {
        if !starts[k] { return; }
        workers := workers + [Waiting];
        started := k + 1;
      }
    }

    /** The part of `Submit` under the lock. */
    method SubmitJob(m: Module, job: Job, starts: seq<bool>, created: bool) returns (accepted: bool, ghost started: nat)
      requires Inv(State())
      modifies this
      ensures State() == Step(old(State()), TaskPool.SubmitJob(m, job, started, created)) && Inv(State())
      ensures accepted == Submit(old(State()), m, job, started, created).1
    {
      hide Inv, Schedule;
      ghost var was := State();
      started := 0;
      if stopping || m in halted || m in disabled { return false, started; }
      if workers == [] {
        started := StartWorkers(starts);
      }
      SubmitKeeps(was, m, job, started, created);
      if workers == [] { return false, started; }
      if m !in owners {
        owners := owners[m := Owner([], [], 0, false, false)];
      }
      assert State() == Opened(Started(was, started), m);
      accepted := Offer(m, job, created);
    }

    /** The owner takes the job unless it is closing, or wants a context that cannot be created. */
    method Offer(m: Module, job: Job, created: bool) returns (accepted: bool)
      requires m in owners
      modifies this`owners, this`ready, this`nextContext, this`log
      ensures var r := old(State());
              var grown := if WantsContext(r, m) then Grown(r, m) else r;
              accepted == !(r.owners[m].closing || (WantsContext(r, m) && !created))
              && State() == if accepted then Enqueue(grown, m, job) else r
    {
      hide Schedule, Min;
      if owners[m].closing { return false; }
      if |owners[m].contexts| < Min(|owners[m].jobs| + owners[m].running + 1, |workers|) {
        if !created { return false; }
        Grow(m);
      }
      Accept(m, job);
      ScheduleOwner(m);
      return true;
    }

    method Grow(m: Module)
      requires m in owners
      modifies this`owners, this`nextContext
      ensures State() == Grown(old(State()), m)
    {
      owners := owners[m := owners[m].(contexts := owners[m].contexts + [Context(nextContext, false)])];
      nextContext := nextContext + 1;
    }

    method Accept(m: Module, job: Job)
      requires m in owners
      modifies this`owners, this`log
      ensures State() == Accepted(old(State()), m, job)
    {
      log := log.(accepted := log.accepted[m := Listed(log.accepted, m) + [job]]);
      owners := owners[m := owners[m].(jobs := owners[m].jobs + [job])];
    }

    /** `Drain` up to its wait. */
    method BeginDrain(m: Module)
      requires Inv(State())
      modifies this`owners
      ensures State() == Step(old(State()), DrainOwner(m)) && Inv(State())
    {
      hide Inv;
      CloseKeeps(State(), m);
      if m in owners {
        owners := owners[m := owners[m].(closing := true)];
      }
    }

    /** The last locked part of `Tasks_Release_Owner`; the owner's contexts are handed back for destruction. */
    method TakeOwner(m: Module) returns (contexts: seq<Context>)
      requires Inv(State()) && m in releases && releases[m].Drained?
      modifies this`owners, this`releases
      ensures State() == Step(old(State()), EraseOwner(m)) && Inv(State())
      ensures contexts == if m in old(owners) then old(owners)[m].contexts else []
      ensures forall c <- contexts :: !c.busy
    {
      hide Inv, Schedule, Step;
      EraseKeeps(State(), m);
      EraseSteps(State(), m);
      contexts := if m in owners then owners[m].contexts else [];
      forall c <- contexts ensures !c.busy {
        var k :| 0 <= k < |contexts| && contexts[k] == c;
        DrainedContextIdle(State(), m, k);
      }
      owners := owners - {m};
      releases := releases[m := Erased];
    }
  }

  /** No worker is inside a drained owner's context, so destroying it is safe. */
  lemma {:induction false} DrainedContextIdle(p: Pool, m: Module, k: nat)
    requires Inv(p) && m in p.owners && m in p.releases && p.releases[m].Drained? && k < |p.owners[m].contexts|
    ensures !p.owners[m].contexts[k].busy
  {
    DrainedIsUnreferenced(p, m);
    hide OwnersInv, WorkersInv, QueueInv, LogInv;
    hide Held;
    HeldIsServed(p.workers, m, p.owners[m].contexts[k].id);
  }

  lemma {:induction false} HeldIsServed(workers: seq<Worker>, m: Module, id: nat)
    requires forall w :: 0 <= w < |workers| ==> !Serves(workers[w], m)
    ensures !Held(workers, m, id)
  {}

  // Each transition in terms of the function that computes it.

  lemma {:induction false} TakeSteps(p: Pool, w: nat)
    requires Inv(p) && CanTake(p, w) && p.ready[0] in p.owners && Servable(p.owners[p.ready[0]])
    ensures Step(p, TakeJob(w)) == Schedule(Taken(p, w), p.ready[0])
    ensures Schedule(Taken(p, w), p.ready[0]).workers == Taken(p, w).workers
  {}

  lemma {:induction false} FinishSteps(p: Pool, w: nat)
    requires Inv(p) && CanFinish(p, w)
    requires p.workers[w].owner in p.owners && p.owners[p.workers[w].owner].running > 0
    requires Position(p.owners[p.workers[w].owner].contexts, p.workers[w].context).Some?
    ensures Step(p, FinishJob(w)) == Finish(p, w)
  {}

  lemma {:induction false} ResumeSteps(p: Pool, w: nat)
    requires Inv(p) && CanResume(p, w)
    requires p.workers[w].owner in p.owners && p.owners[p.workers[w].owner].running > 0
    ensures Step(p, ResumeWorker(w)) == Resume(p, w)
  {}

  lemma {:induction false} EraseSteps(p: Pool, m: Module)
    requires Inv(p) && m in p.releases && p.releases[m].Drained?
    ensures Step(p, EraseOwner(m)) == Erase(p, m)
  {
    hide Inv, Erase;
  }
}
