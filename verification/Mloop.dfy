/** The life of work and async jobs (src/mloop.c): any number of threads start jobs,
    run workers and run the main loop, interleaved at every access to a job's state,
    a queue or a lock.

    An activity is a call into the main loop's interface, or a round of a worker or of
    the main loop, with its program counter. A compare-and-swap, an insertion and a pop
    are one step each, since the queues do the latter two under their own recursive
    lock. A user function may call in again: a thread has a stack of activities, of
    which only the innermost moves, and locks belong to threads. Objects are never
    deallocated here. */
module Mloop {
  import opened Common

  datatype State = Stopped | Starting | Started

  datatype Kind = Work | Async

  /** `done` says whether the job has a done_fn or callback. */
  datatype Job = Job(kind: Kind, done: bool, state: State, cancelled: bool)

  datatype Pc =
    | Idle
    // mloop_work_start, lines 1716-1742
    | WorkClaimed(job: nat) | WorkReset(job: nat) | WorkLocked(job: nat) | WorkInserted(job: nat)
    | WorkFailed(job: nat) | WorkUnwinding(job: nat)
    // mloop_async_start, lines 1680-1701
    | AsyncClaimed(job: nat) | AsyncLocked(job: nat) | AsyncReset(job: nat) | AsyncInserted(job: nat)
    | AsyncStarted(job: nat) | AsyncFailed(job: nat) | AsyncUnwinding(job: nat)
    // mloop__worker_fn and mloop__forward_work, lines 701-731 and 677-690
    | WorkerHas(job: nat) | WorkerRan(job: nat) | WorkerRetiring(job: nat)
    | ForwardLocked(job: nat) | ForwardInserted(job: nat) | ForwardFailed(job: nat) | ForwardDone(job: nat)
    // mloop__process_async_jobs, lines 1292-1311
    | MainHas(job: nat) | MainRan(job: nat)

  /** A recursive mutex. */
  datatype Lock = Lock(owner: nat, depth: nat)

  predicate CanLock(l: Lock, t: nat) { l.depth == 0 || l.owner == t }

  function Locked(l: Lock, t: nat): Lock { Lock(t, l.depth + 1) }

  /** Unlocking a mutex of another thread is an error without effect. */
  function Unlocked(l: Lock, t: nat): Lock {
    if l.depth > 0 && l.owner == t then Lock(t, l.depth - 1) else l
  }

  /** What a job's user sees: a start that succeeds, the work run, the done function run. */
  datatype Entry = Begun(job: nat) | Worked(job: nat) | Finished(job: nat)

  /** Where a job is: the bookkeeping the proof rests on. */
  datatype Place = Nowhere | InJobs | InAsyncs | Held(activity: nat)

  /** `host` gives the thread of an activity and `stack` the activities of a thread, the
      innermost last; `leaks` counts the failed insertions of mloop_async_start. */
  datatype Sys = Sys(
    jobs: map<nat, Job>, pcs: map<nat, Pc>, host: map<nat, nat>, stack: map<nat, seq<nat>>,
    jobQueue: multiset<nat>, asyncQueue: multiset<nat>, jobLock: Lock, asyncLock: Lock,
    log: seq<Entry>, place: map<nat, Place>, leaks: nat)

  /** Besides the calls and their steps: the running user function calls in as activity
      `inner`, and an activity that has nothing more to do returns to its caller. */
  datatype Action =
    | StartWork(job: nat) | StartAsync(job: nat) | TakeJob(job: nat) | TakeAsync(job: nat)
    | Go(ok: bool) | Cancel(job: nat) | Nest(inner: nat) | Return

  /** The thread of an activity. */
  function Thread(s: Sys, t: nat): nat { if t in s.host then s.host[t] else 0 }

  /** The innermost activity of a thread. */
  function Inner(stack: map<nat, seq<nat>>, h: nat): nat {
    if h in stack && stack[h] != [] then stack[h][|stack[h]| - 1] else 0
  }

  predicate Top(host: map<nat, nat>, stack: map<nat, seq<nat>>, t: nat) {
    t in host && host[t] in stack && stack[host[t]] != [] && Inner(stack, host[t]) == t
  }

  predicate Active(s: Sys, t: nat) { t in s.pcs && Top(s.host, s.stack, t) }

  /** A user function is running. */
  predicate RunsUser(pc: Pc) { pc.WorkerRan? || pc.MainRan? }

  function At(s: Sys, t: nat, pc: Pc): Sys { s.(pcs := s.pcs[t := pc]) }

  function Put(s: Sys, j: nat, p: Place): Sys { s.(place := s.place[j := p]) }

  /** mloop__change_state: nothing happens unless the state is the expected one. */
  function Cas(s: Sys, j: nat, from: State, to: State): Sys {
    if j in s.jobs && s.jobs[j].state == from then s.(jobs := s.jobs[j := s.jobs[j].(state := to)]) else s
  }

  function Stop(s: Sys, t: nat, j: nat, from: State): Sys { Put(At(Cas(s, j, from, Stopped), t, Idle), j, Nowhere) }

  /** The first step of a call by an idle activity. */
  function Enter(s: Sys, t: nat, a: Action): Sys {
    match a
    case StartWork(j) =>
      if j in s.jobs && s.jobs[j].kind == Work && s.jobs[j].state == Stopped then
        Put(At(Cas(s, j, Stopped, Starting), t, WorkClaimed(j)), j, Held(t))
      else s
    case StartAsync(j) =>
      if j in s.jobs && s.jobs[j].kind == Async && s.jobs[j].state == Stopped then
        Put(At(Cas(s, j, Stopped, Starting), t, AsyncClaimed(j)), j, Held(t))
      else s
    case TakeJob(j) =>
      if j in s.jobQueue && CanLock(s.jobLock, Thread(s, t)) then
        Put(At(s.(jobQueue := s.jobQueue - multiset{j}), t, WorkerHas(j)), j, Held(t))
      else s
    case TakeAsync(j) =>
      if j in s.asyncQueue && CanLock(s.asyncLock, Thread(s, t)) then
        Put(At(s.(asyncQueue := s.asyncQueue - multiset{j}), t, MainHas(j)), j, Held(t))
      else s
    case _ => s
  }

  function Uncancelled(s: Sys, j: nat): Sys
    requires j in s.jobs
  {
    s.(jobs := s.jobs[j := s.jobs[j].(cancelled := false)])
  }

  /** The next step of mloop_work_start. */
  function GoWork(s: Sys, t: nat, pc: Pc, ok: bool): Sys
    requires pc.Idle? || pc.job in s.jobs
  {
    match pc
    case WorkClaimed(j) => At(Uncancelled(s, j), t, WorkReset(j))
    case WorkReset(j) =>
      if !CanLock(s.jobLock, Thread(s, t)) then s
      else At(s.(jobLock := Locked(s.jobLock, Thread(s, t))), t, WorkLocked(j))
    case WorkLocked(j) =>
      if ok then
        var r := s.(jobQueue := s.jobQueue + multiset{j}, log := s.log + [Begun(j)]);
        Put(At(r, t, WorkInserted(j)), j, InJobs)
      else At(s, t, WorkFailed(j))
    case WorkInserted(j) => At(s.(jobLock := Unlocked(s.jobLock, Thread(s, t))), t, Idle)
    case WorkFailed(j) => At(s.(jobLock := Unlocked(s.jobLock, Thread(s, t))), t, WorkUnwinding(j))
    case WorkUnwinding(j) => Stop(s, t, j, Starting)
    case _ => s
  }

  /** The next step of mloop_async_start. Its failure path releases the lock of the
      other queue. */
  function GoAsync(s: Sys, t: nat, pc: Pc, ok: bool): Sys
    requires pc.Idle? || pc.job in s.jobs
  {
    match pc
    case AsyncClaimed(j) =>
      if !CanLock(s.asyncLock, Thread(s, t)) then s
      else At(s.(asyncLock := Locked(s.asyncLock, Thread(s, t))), t, AsyncLocked(j))
    case AsyncLocked(j) => At(Uncancelled(s, j), t, AsyncReset(j))
    case AsyncReset(j) =>
      if ok then
        var r := s.(asyncQueue := s.asyncQueue + multiset{j}, log := s.log + [Begun(j)]);
        Put(At(r, t, AsyncInserted(j)), j, InAsyncs)
      else At(s, t, AsyncFailed(j)).(leaks := s.leaks + 1)
    case AsyncInserted(j) => At(Cas(s, j, Starting, Started), t, AsyncStarted(j))
    case AsyncStarted(j) => At(s.(asyncLock := Unlocked(s.asyncLock, Thread(s, t))), t, Idle)
    case AsyncFailed(j) => At(s.(jobLock := Unlocked(s.jobLock, Thread(s, t))), t, AsyncUnwinding(j))
    case AsyncUnwinding(j) => Stop(s, t, j, Starting)
    case _ => s
  }

  /** The next step of a worker with a job in hand. */
  function GoWorker(s: Sys, t: nat, pc: Pc): Sys
    requires pc.Idle? || pc.job in s.jobs
  {
    match pc
    case WorkerHas(j) =>
      if s.jobs[j].cancelled then At(s, t, WorkerRetiring(j))
      else At(s, t, WorkerRan(j)).(log := s.log + [Worked(j)])
    case WorkerRan(j) =>
      if !s.jobs[j].done then At(s, t, WorkerRetiring(j))
      else if !CanLock(s.asyncLock, Thread(s, t)) then s
      else At(s.(asyncLock := Locked(s.asyncLock, Thread(s, t))), t, ForwardLocked(j))
    case WorkerRetiring(j) => Stop(s, t, j, Starting)
    case _ => s
  }

  /** The next step of mloop__forward_work. */
  function GoForward(s: Sys, t: nat, pc: Pc, ok: bool): Sys
    requires pc.Idle? || pc.job in s.jobs
  {
    match pc
    case ForwardLocked(j) =>
      if ok then Put(At(s.(asyncQueue := s.asyncQueue + multiset{j}), t, ForwardInserted(j)), j, InAsyncs)
      else At(s, t, ForwardFailed(j))
    case ForwardInserted(j) => At(Cas(s, j, Starting, Started), t, ForwardDone(j))
    case ForwardFailed(j) => Put(At(Cas(s, j, Starting, Stopped), t, ForwardDone(j)), j, Nowhere)
    case ForwardDone(j) => At(s.(asyncLock := Unlocked(s.asyncLock, Thread(s, t))), t, Idle)
    case _ => s
  }

  /** The next step of the main loop with a job in hand. */
  function GoMain(s: Sys, t: nat, pc: Pc): Sys
    requires pc.Idle? || pc.job in s.jobs
  {
    match pc
    case MainHas(j) =>
      if s.jobs[j].cancelled || !s.jobs[j].done then At(s, t, MainRan(j))
      else At(s, t, MainRan(j)).(log := s.log + [Finished(j)])
    case MainRan(j) => Stop(s, t, j, Started)
    case _ => s
  }

  datatype Role = NoRole | WorkStarter | AsyncStarter | Worker | Forwarder | MainLoop

  function RoleOf(pc: Pc): Role {
    match pc
    case Idle => NoRole
    case WorkClaimed(_) => WorkStarter
    case WorkReset(_) => WorkStarter
    case WorkLocked(_) => WorkStarter
    case WorkInserted(_) => WorkStarter
    case WorkFailed(_) => WorkStarter
    case WorkUnwinding(_) => WorkStarter
    case WorkerHas(_) => Worker
    case WorkerRan(_) => Worker
    case WorkerRetiring(_) => Worker
    case ForwardLocked(_) => Forwarder
    case ForwardInserted(_) => Forwarder
    case ForwardFailed(_) => Forwarder
    case ForwardDone(_) => Forwarder
    case MainHas(_) => MainLoop
    case MainRan(_) => MainLoop
    case _ => AsyncStarter
  }

  /** A call from a user function, and the return to it. */
  function Switch(s: Sys, t: nat, a: Action): Sys
    requires Active(s, t)
  {
    var h := s.host[t];
    match a
    case Nest(u) =>
      if RunsUser(s.pcs[t]) && u in s.pcs && u in s.host && s.host[u] == h && s.pcs[u].Idle? && u !in s.stack[h] then
        s.(stack := s.stack[h := s.stack[h] + [u]])
      else s
    case Return =>
      if s.pcs[t].Idle? && |s.stack[h]| > 1 then s.(stack := s.stack[h := s.stack[h][..|s.stack[h]| - 1]]) else s
    case _ => s
  }

  /** The next step of an activity inside a call. */
  function Proceed(s: Sys, t: nat, ok: bool): Sys
    requires t in s.pcs
  {
    var pc := s.pcs[t];
    if pc.Idle? || pc.job !in s.jobs then s
    else match RoleOf(pc)
      case NoRole => s
      case WorkStarter => GoWork(s, t, pc, ok)
      case AsyncStarter => GoAsync(s, t, pc, ok)
      case Worker => GoWorker(s, t, pc)
      case Forwarder => GoForward(s, t, pc, ok)
      case MainLoop => GoMain(s, t, pc)
  }

  function Cancelled(s: Sys, j: nat): Sys {
    if j in s.jobs then s.(jobs := s.jobs[j := s.jobs[j].(cancelled := true)]) else s
  }

  /** One step of one activity; anyone may cancel a job at any time. */
  function Step(s: Sys, t: nat, a: Action): Sys {
    if a.Cancel? then Cancelled(s, a.job)
    else if !Active(s, t) then s
    else if a.Nest? || a.Return? then Switch(s, t, a)
    else if a.Go? then Proceed(s, t, a.ok)
    else if s.pcs[t].Idle? then Enter(s, t, a)
    else s
  }
}
