/** The invariant of jobs, queues, locks and histories, and that every step of every
    activity keeps it (src/mloop.c:667-735, 1288-1312 and 1676-1743). */
module MloopSteps {
  import opened Common
  import opened Mloop

  /** The job an activity has to itself, if any. */
  function Holds(pc: Pc): set<nat> {
    match pc
    case Idle => {}
    case WorkInserted(_) => {}
    case AsyncInserted(_) => {}
    case AsyncStarted(_) => {}
    case ForwardInserted(_) => {}
    case ForwardDone(_) => {}
    case _ => {pc.job}
  }

  predicate InJobSection(pc: Pc) { pc.WorkLocked? || pc.WorkInserted? || pc.WorkFailed? }

  predicate InAsyncSection(pc: Pc) {
    pc.AsyncLocked? || pc.AsyncReset? || pc.AsyncInserted? || pc.AsyncStarted?
    || pc.ForwardLocked? || pc.ForwardInserted? || pc.ForwardFailed? || pc.ForwardDone?
  }

  /** Between an insertion into the main loop's queue and the change of state. */
  predicate Settling(pc: Pc) { pc.AsyncInserted? || pc.ForwardInserted? }

  /** The last entry of a job. */
  function Last(log: seq<Entry>, j: nat): Entry {
    if log == [] then Finished(j)
    else if log[|log| - 1].job == j then log[|log| - 1]
    else Last(log[..|log| - 1], j)
  }

  /** What the entry before the job's done function must be. */
  ghost predicate Due(s: Sys, j: nat)
    requires j in s.jobs
  {
    Last(s.log, j) == if s.jobs[j].kind == Work then Worked(j) else Begun(j)
  }

  /** A job in an activity's hands. */
  ghost predicate HeldOk(s: Sys, j: nat, pc: Pc)
    requires j in s.jobs
  {
    && j in Holds(pc)
    && s.jobs[j].state == (if RoleOf(pc) == MainLoop then Started else Starting)
    && (RoleOf(pc) == WorkStarter ==> s.jobs[j].kind == Work)
    && (RoleOf(pc) == AsyncStarter ==> s.jobs[j].kind == Async)
    && (RoleOf(pc) == Worker || RoleOf(pc) == Forwarder ==> s.jobs[j].kind == Work)
    && (pc.WorkerHas? ==> Last(s.log, j) == Begun(j))
    && (pc.WorkerRan? || pc.ForwardLocked? || pc.ForwardFailed? ==> Last(s.log, j) == Worked(j))
    && (pc.MainHas? ==> Due(s, j))
  }

  ghost predicate SettledBy(s: Sys, t: nat, j: nat) {
    t in s.pcs && Settling(s.pcs[t]) && s.pcs[t].job == j
  }

  /** A job is in one place, and its state and history agree with it. A job in the
      main loop's queue is started, or the activity that put it there has the lock. */
  ghost predicate JobOk(s: Sys, j: nat) {
    && j in s.jobs && j in s.place
    && s.jobQueue[j] == (if s.place[j] == InJobs then 1 else 0)
    && s.asyncQueue[j] == (if s.place[j] == InAsyncs then 1 else 0)
    && match s.place[j]
       case Nowhere => s.jobs[j].state == Stopped
       case InJobs => s.jobs[j].state == Starting && s.jobs[j].kind == Work && Last(s.log, j) == Begun(j)
       case InAsyncs =>
         && Due(s, j)
         && (s.jobs[j].state == Started
             || (&& s.jobs[j].state == Starting && s.asyncLock.depth > 0
                 && SettledBy(s, Inner(s.stack, s.asyncLock.owner), j)))
       case Held(t) => t in s.pcs && HeldOk(s, j, s.pcs[t])
  }

  /** Only the innermost activity of a thread is inside a call's own code; a lock its
      code needs belongs to its thread. */
  ghost predicate PcOk(s: Sys, t: nat) {
    && t in s.pcs && t in s.host && s.host[t] in s.stack
    && var pc := s.pcs[t];
    && (!Top(s.host, s.stack, t) ==> pc.Idle? || RunsUser(pc))
    && (!pc.Idle? ==> pc.job in s.jobs && pc.job in s.place)
    && (!pc.Idle? && pc.job in Holds(pc) ==> s.place[pc.job] == Held(t))
    && (InJobSection(pc) ==> s.jobLock.owner == Thread(s, t) && s.jobLock.depth > 0)
    && (InAsyncSection(pc) ==> s.asyncLock.owner == Thread(s, t) && s.asyncLock.depth > 0)
    && (pc.WorkInserted? ==> s.place[pc.job] == InJobs)
    && (Settling(pc) ==> s.place[pc.job] == InAsyncs && s.jobs[pc.job].state == Starting)
    && (pc.AsyncStarted? ==> s.place[pc.job] == InAsyncs)
  }

  /** The stack of a thread: activities of its own, each once. */
  ghost predicate StackOk(s: Sys, h: nat)
    requires h in s.stack
  {
    var k := s.stack[h];
    && k != []
    && (forall i :: 0 <= i < |k| ==> k[i] in s.pcs && k[i] in s.host && s.host[k[i]] == h)
    && (forall i, j :: 0 <= i < j < |k| ==> k[i] != k[j])
  }

  ghost predicate Inv(s: Sys) {
    && s.place.Keys == s.jobs.Keys
    && (forall h :: h in s.stack ==> StackOk(s, h))
    && (forall j :: j in s.jobQueue || j in s.asyncQueue ==> j in s.jobs)
    && (forall j :: j in s.jobs ==> JobOk(s, j))
    && (forall t :: t in s.pcs ==> PcOk(s, t))
  }

  // ------------------------------------------- a step changes one job only

  /** A step of activity `t` on job `j` that leaves every other job and activity alone
      and takes a job out of a queue, or touches a lock, only with the lock. */
  ghost predicate Local(s: Sys, r: Sys, t: nat, j: nat) {
    && Active(s, t) && j in s.jobs && j in s.place
    && r.host == s.host && r.stack == s.stack
    && t in r.pcs && r.pcs == s.pcs[t := r.pcs[t]]
    && j in r.jobs && r.jobs == s.jobs[j := r.jobs[j]]
    && j in r.place && r.place == s.place[j := r.place[j]]
    && (forall k :: k != j ==> r.jobQueue[k] == s.jobQueue[k] && r.asyncQueue[k] == s.asyncQueue[k])
    && (r.log == s.log || (exists e: Entry :: e.job == j && r.log == s.log + [e]))
    && (s.pcs[t].Idle? || s.pcs[t].job == j)
    && (s.place[j].Held? && s.place[j].activity != t ==>
          r.place[j] == s.place[j] && r.jobs[j] == s.jobs[j] && r.log == s.log)
    && (r.jobLock == s.jobLock || CanLock(s.jobLock, Thread(s, t)))
    && (r.asyncLock == s.asyncLock || CanLock(s.asyncLock, Thread(s, t)))
    && (s.place[j] == InJobs && r.place[j] != InJobs ==> CanLock(s.jobLock, Thread(s, t)))
    && (s.place[j] == InAsyncs && (r.place[j] != InAsyncs || r.jobs[j].state != s.jobs[j].state) ==>
          CanLock(s.asyncLock, Thread(s, t)))
  }

  lemma {:induction false} LastAppend(log: seq<Entry>, e: Entry, j: nat)
    ensures Last(log + [e], j) == if e.job == j then e else Last(log, j)
  {
    assert (log + [e])[..|log|] == log;
  }

  /** Two activities that move are on different threads, so no lock lets both in. */
  lemma {:induction false} OneInside(s: Sys, t: nat, u: nat)
    requires PcOk(s, t) && PcOk(s, u) && Active(s, t) && u != t
    ensures InJobSection(s.pcs[u]) ==> !CanLock(s.jobLock, Thread(s, t))
    ensures InAsyncSection(s.pcs[u]) ==> !CanLock(s.asyncLock, Thread(s, t))
  {
  }

  lemma {:induction false} OtherLast(s: Sys, r: Sys, t: nat, j: nat, k: nat)
    requires Local(s, r, t, j) && k != j
    ensures Last(r.log, k) == Last(s.log, k)
  {
    hide Last, Top;
    if r.log != s.log {
      var e: Entry :| e.job == j && r.log == s.log + [e];
      LastAppend(s.log, e, k);
    }
  }

  /** The activity that has just inserted job `k` goes on having the lock. */
  lemma {:induction false} OtherSettled(s: Sys, r: Sys, t: nat, j: nat, k: nat)
    requires Local(s, r, t, j) && k != j && PcOk(s, t) && s.asyncLock.depth > 0
    requires SettledBy(s, Inner(s.stack, s.asyncLock.owner), k) && PcOk(s, Inner(s.stack, s.asyncLock.owner))
    ensures r.asyncLock == s.asyncLock && SettledBy(r, Inner(r.stack, r.asyncLock.owner), k)
  {
    OneInside(s, t, Inner(s.stack, s.asyncLock.owner));
  }

  lemma {:induction false} OtherJob(s: Sys, r: Sys, t: nat, j: nat, k: nat)
    requires Local(s, r, t, j) && JobOk(s, k) && k != j && forall u :: u in s.pcs ==> PcOk(s, u)
    ensures JobOk(r, k)
  {
    hide Last, Top, Inner, PcOk;
    OtherLast(s, r, t, j, k);
    if s.place[k].InAsyncs? && s.jobs[k].state == Starting {
      OtherSettled(s, r, t, j, k);
    } else if s.place[k].Held? {
      OtherHeld(s, r, t, j, k);
    }
  }

  lemma {:induction false} OtherHeld(s: Sys, r: Sys, t: nat, j: nat, k: nat)
    requires Local(s, r, t, j) && JobOk(s, k) && k != j && s.place[k].Held? && Last(r.log, k) == Last(s.log, k)
    ensures r.place[k] == s.place[k] && s.place[k].activity in r.pcs && HeldOk(r, k, r.pcs[s.place[k].activity])
  {
    hide Last, Top;
    assert s.place[k].activity != t by { assert k in Holds(s.pcs[s.place[k].activity]); }
  }

  lemma {:induction false} OtherActivity(s: Sys, r: Sys, t: nat, j: nat, u: nat)
    requires Inv(s) && Local(s, r, t, j) && u in s.pcs && u != t
    ensures PcOk(r, u)
  {
    hide Top, Last, StackOk;
    assert PcOk(s, u) && PcOk(s, t) && JobOk(s, j);
    OneInside(s, t, u);
  }

  lemma {:induction false} SameStacks(s: Sys, r: Sys)
    requires (forall h :: h in s.stack ==> StackOk(s, h)) && r.stack == s.stack && r.host == s.host
    requires r.pcs.Keys == s.pcs.Keys
    ensures forall h :: h in r.stack ==> StackOk(r, h)
  {
    forall h | h in r.stack ensures StackOk(r, h) { assert StackOk(s, h); }
  }

  /** So only the activity and the job of the step are left to look at. */
  lemma {:induction false} LocalKeeps(s: Sys, r: Sys, t: nat, j: nat)
    requires Inv(s) && Local(s, r, t, j) && JobOk(r, j) && PcOk(r, t)
    ensures Inv(r)
  {
    hide StackOk, Last, Top, JobOk, PcOk;
    forall k | k in r.jobs ensures JobOk(r, k) {
      if k != j { OtherJob(s, r, t, j, k); }
    }
    forall u | u in r.pcs ensures PcOk(r, u) {
      if u != t { OtherActivity(s, r, t, j, u); }
    }
    SameStacks(s, r);
    assert forall k :: k in r.jobQueue || k in r.asyncQueue ==> k == j || k in s.jobQueue || k in s.asyncQueue;
  }

  /** The step is local and leaves its own job and activity in order. */
  ghost predicate Fine(s: Sys, r: Sys, t: nat, j: nat) { Local(s, r, t, j) && JobOk(r, j) && PcOk(r, t) }

  lemma {:induction false} InnerIsActive(s: Sys, t: nat)
    requires Active(s, t)
    ensures Inner(s.stack, Thread(s, t)) == t
  {
  }

  lemma {:induction false} StartFine(s: Sys, t: nat, a: Action)
    requires PcOk(s, t) && Active(s, t) && s.pcs[t].Idle? && (a.StartWork? || a.StartAsync?)
    requires JobOk(s, a.job) && Enter(s, t, a) != s
    ensures Fine(s, Enter(s, t, a), t, a.job)
  {
    hide Last, Top;
  }

  lemma {:induction false} TakeJobFine(s: Sys, t: nat, j: nat)
    requires PcOk(s, t) && Active(s, t) && s.pcs[t].Idle? && JobOk(s, j)
    requires j in s.jobQueue && CanLock(s.jobLock, Thread(s, t))
    ensures Fine(s, Enter(s, t, TakeJob(j)), t, j)
  {
    hide Last, Top;
  }

  /** The lock is held across insertion and change of state, so whatever the main
      loop can take is started: the assertion in mloop__process_async_jobs holds. */
  lemma {:induction false} TakenIsStarted(s: Sys, t: nat, j: nat)
    requires PcOk(s, t) && Active(s, t) && s.pcs[t].Idle? && JobOk(s, j)
    requires j in s.asyncQueue && CanLock(s.asyncLock, Thread(s, t))
    ensures s.jobs[j].state == Started
  {
  }

  lemma {:induction false} TakeAsyncFine(s: Sys, t: nat, j: nat)
    requires PcOk(s, t) && Active(s, t) && s.pcs[t].Idle? && JobOk(s, j)
    requires j in s.asyncQueue && CanLock(s.asyncLock, Thread(s, t))
    ensures Fine(s, Enter(s, t, TakeAsync(j)), t, j)
  {
    hide Last, Top;
    TakenIsStarted(s, t, j);
  }

  /** Before the insertion a starter has yet to lock or insert; after it, to unwind. */
  predicate Entering(pc: Pc) {
    pc.WorkClaimed? || pc.WorkReset? || pc.WorkLocked? || pc.AsyncClaimed? || pc.AsyncLocked? || pc.AsyncReset?
  }

  /** About to insert. */
  predicate Inserting(pc: Pc) { pc.WorkLocked? || pc.AsyncReset? || pc.ForwardLocked? }

  /** An activity inside a call of the given role, and its job. */
  ghost predicate Inside(s: Sys, t: nat, role: Role) {
    PcOk(s, t) && Active(s, t) && !s.pcs[t].Idle? && RoleOf(s.pcs[t]) == role && JobOk(s, s.pcs[t].job)
  }

  /** About to stop the job, at the end of a call. */
  predicate Stopping(pc: Pc) { pc.WorkUnwinding? || pc.AsyncUnwinding? || pc.WorkerRetiring? || pc.MainRan? }

  lemma {:induction false} StopFine(s: Sys, t: nat, from: State)
    requires PcOk(s, t) && Active(s, t) && Stopping(s.pcs[t]) && JobOk(s, s.pcs[t].job)
    requires from == if s.pcs[t].MainRan? then Started else Starting
    ensures Fine(s, Stop(s, t, s.pcs[t].job, from), t, s.pcs[t].job)
  {
    hide Last, Top;
  }

  lemma {:induction false} StopMoves(s: Sys, t: nat, from: State)
    requires PcOk(s, t) && Active(s, t) && Stopping(s.pcs[t])
    ensures Moves(s, Stop(s, t, s.pcs[t].job, from), t, s.pcs[t].job)
  {
    hide Last, Top;
  }

  lemma {:induction false} GoWorkFine(s: Sys, t: nat, ok: bool)
    requires Inside(s, t, WorkStarter) && Entering(s.pcs[t]) && !Inserting(s.pcs[t])
    ensures Fine(s, GoWork(s, t, s.pcs[t], ok), t, s.pcs[t].job)
  {
    hide Last, Top;
  }

  lemma {:induction false} WorkInsertFine(s: Sys, t: nat, ok: bool)
    requires Inside(s, t, WorkStarter) && Inserting(s.pcs[t])
    ensures Fine(s, GoWork(s, t, s.pcs[t], ok), t, s.pcs[t].job)
  {
    hide Last, Top;
    LastAppend(s.log, Begun(s.pcs[t].job), s.pcs[t].job);
  }

  lemma {:induction false} GoWorkOutFine(s: Sys, t: nat, ok: bool)
    requires Inside(s, t, WorkStarter) && !Entering(s.pcs[t]) && !Stopping(s.pcs[t])
    ensures Fine(s, GoWork(s, t, s.pcs[t], ok), t, s.pcs[t].job)
  {
    hide Last, Top;
  }

  lemma {:induction false} GoAsyncFine(s: Sys, t: nat, ok: bool)
    requires Inside(s, t, AsyncStarter) && Entering(s.pcs[t]) && !Inserting(s.pcs[t])
    ensures Fine(s, GoAsync(s, t, s.pcs[t], ok), t, s.pcs[t].job)
  {
    hide Last, Top;
  }

  lemma {:induction false} AsyncInsertFine(s: Sys, t: nat, ok: bool)
    requires Inside(s, t, AsyncStarter) && Inserting(s.pcs[t])
    ensures Fine(s, GoAsync(s, t, s.pcs[t], ok), t, s.pcs[t].job)
  {
    hide Last, Top;
    LastAppend(s.log, Begun(s.pcs[t].job), s.pcs[t].job);
    InnerIsActive(s, t);
  }

  lemma {:induction false} AsyncUnlockFine(s: Sys, t: nat, ok: bool)
    requires Inside(s, t, AsyncStarter) && s.pcs[t].AsyncStarted?
    ensures Fine(s, GoAsync(s, t, s.pcs[t], ok), t, s.pcs[t].job)
  {
    hide Last, Top;
    InnerIsActive(s, t);
  }

  lemma {:induction false} GoAsyncOutFine(s: Sys, t: nat, ok: bool)
    requires Inside(s, t, AsyncStarter) && !Entering(s.pcs[t]) && !s.pcs[t].AsyncStarted? && !Stopping(s.pcs[t])
    ensures Fine(s, GoAsync(s, t, s.pcs[t], ok), t, s.pcs[t].job)
  {
    hide Last, Top;
    InnerIsActive(s, t);
  }

  lemma {:induction false} WorkerRunsFine(s: Sys, t: nat)
    requires Inside(s, t, Worker) && s.pcs[t].WorkerHas?
    ensures Fine(s, GoWorker(s, t, s.pcs[t]), t, s.pcs[t].job)
    ensures Moves(s, GoWorker(s, t, s.pcs[t]), t, s.pcs[t].job)
  {
    hide Last, Top;
    LastAppend(s.log, Worked(s.pcs[t].job), s.pcs[t].job);
  }

  lemma {:induction false} GoWorkerFine(s: Sys, t: nat)
    requires Inside(s, t, Worker) && s.pcs[t].WorkerRan?
    ensures Fine(s, GoWorker(s, t, s.pcs[t]), t, s.pcs[t].job)
  {
    hide Last, Top;
  }

  lemma {:induction false} ForwardInsertFine(s: Sys, t: nat, ok: bool)
    requires Inside(s, t, Forwarder) && Inserting(s.pcs[t])
    ensures Fine(s, GoForward(s, t, s.pcs[t], ok), t, s.pcs[t].job)
  {
    hide Last, Top;
    InnerIsActive(s, t);
  }

  lemma {:induction false} ForwardUnlockFine(s: Sys, t: nat, ok: bool)
    requires Inside(s, t, Forwarder) && s.pcs[t].ForwardDone?
    ensures Fine(s, GoForward(s, t, s.pcs[t], ok), t, s.pcs[t].job)
  {
    hide Last, Top;
    InnerIsActive(s, t);
  }

  lemma {:induction false} GoForwardFine(s: Sys, t: nat, ok: bool)
    requires Inside(s, t, Forwarder) && !Inserting(s.pcs[t]) && !s.pcs[t].ForwardDone?
    ensures Fine(s, GoForward(s, t, s.pcs[t], ok), t, s.pcs[t].job)
  {
    hide Last, Top;
    InnerIsActive(s, t);
  }

  lemma {:induction false} GoMainFine(s: Sys, t: nat)
    requires Inside(s, t, MainLoop) && s.pcs[t].MainHas?
    ensures Fine(s, GoMain(s, t, s.pcs[t]), t, s.pcs[t].job)
  {
    hide Last, Top;
    LastAppend(s.log, Finished(s.pcs[t].job), s.pcs[t].job);
  }

  // ------------------------------- and moves states, history and locks so

  predicate Edge(from: State, to: State) {
    from == to || (from == Stopped && to == Starting) || (from == Starting && to == Started) || to == Stopped
  }

  /** An entry that may follow: the work function right after the start, the done
      function right after the work function, or after the start of a job without. */
  ghost predicate Follows(log: seq<Entry>, e: Entry, kind: Kind) {
    && (e.Worked? ==> kind == Work && Last(log, e.job) == Begun(e.job))
    && (e.Finished? ==> Last(log, e.job) == if kind == Work then Worked(e.job) else Begun(e.job))
  }

  /** Locking on the way into a section, unlocking on the way out. */
  ghost predicate LockMoves(l: Lock, m: Lock, h: nat, was: bool, now: bool) {
    if was == now then m == l
    else if now then CanLock(l, h) && m == Locked(l, h)
    else l.owner == h && l.depth > 0 && m == Lock(h, l.depth - 1)
  }

  ghost predicate Moves(s: Sys, r: Sys, t: nat, j: nat) {
    && Active(s, t) && t in r.pcs && r.pcs == s.pcs[t := r.pcs[t]] && r.host == s.host && r.stack == s.stack
    && j in s.jobs && j in r.jobs && r.jobs == s.jobs[j := r.jobs[j]]
    && r.jobs[j].kind == s.jobs[j].kind && r.jobs[j].done == s.jobs[j].done
    && Edge(s.jobs[j].state, r.jobs[j].state)
    && (r.log == s.log || (exists e: Entry :: e.job == j && r.log == s.log + [e] && Follows(s.log, e, s.jobs[j].kind)))
    && ((s.jobLock.depth > 0 && s.jobLock.owner == Thread(s, t) ==> InJobSection(s.pcs[t])) ==>
          LockMoves(s.jobLock, r.jobLock, Thread(s, t), InJobSection(s.pcs[t]), InJobSection(r.pcs[t])))
    && if r.leaks == s.leaks then
         LockMoves(s.asyncLock, r.asyncLock, Thread(s, t), InAsyncSection(s.pcs[t]), InAsyncSection(r.pcs[t]))
       else
         && r.leaks == s.leaks + 1 && r.asyncLock == s.asyncLock
         && s.asyncLock.owner == Thread(s, t) && s.asyncLock.depth > 0
         && InAsyncSection(s.pcs[t]) && !InAsyncSection(r.pcs[t])
  }

  /** The calls that an idle activity can make. */
  predicate IsCall(a: Action) { a.StartWork? || a.StartAsync? || a.TakeJob? || a.TakeAsync? }

  predicate IsSwitch(a: Action) { a.Nest? || a.Return? }

  lemma {:induction false} StartMoves(s: Sys, t: nat, a: Action)
    requires Active(s, t) && s.pcs[t].Idle? && (a.StartWork? || a.StartAsync?) && Enter(s, t, a) != s
    ensures Moves(s, Enter(s, t, a), t, a.job)
  {
    hide Last, Top;
  }

  lemma {:induction false} TakeMoves(s: Sys, t: nat, a: Action)
    requires Active(s, t) && s.pcs[t].Idle? && (a.TakeJob? || a.TakeAsync?) && a.job in s.jobs && Enter(s, t, a) != s
    ensures Moves(s, Enter(s, t, a), t, a.job)
  {
    hide Last, Top;
  }

  lemma {:induction false} GoWorkMoves(s: Sys, t: nat, ok: bool)
    requires Inside(s, t, WorkStarter) && !Inserting(s.pcs[t]) && !Stopping(s.pcs[t])
    ensures Moves(s, GoWork(s, t, s.pcs[t], ok), t, s.pcs[t].job)
  {
    hide Last, Top, JobOk;
  }

  lemma {:induction false} GoAsyncMoves(s: Sys, t: nat, ok: bool)
    requires Inside(s, t, AsyncStarter) && !Inserting(s.pcs[t]) && !Stopping(s.pcs[t])
    ensures Moves(s, GoAsync(s, t, s.pcs[t], ok), t, s.pcs[t].job)
  {
    hide Last, Top, JobOk;
  }

  lemma {:induction false} InsertMoves(s: Sys, t: nat, ok: bool)
    requires PcOk(s, t) && Active(s, t) && Inserting(s.pcs[t])
    ensures Moves(s, Proceed(s, t, ok), t, s.pcs[t].job)
  {
    hide Last, Top;
  }

  lemma {:induction false} GoWorkerMoves(s: Sys, t: nat)
    requires Inside(s, t, Worker) && s.pcs[t].WorkerRan?
    ensures Moves(s, GoWorker(s, t, s.pcs[t]), t, s.pcs[t].job)
  {
    hide Last, Top, JobOk;
  }

  lemma {:induction false} GoForwardMoves(s: Sys, t: nat, ok: bool)
    requires Inside(s, t, Forwarder) && !Inserting(s.pcs[t])
    ensures Moves(s, GoForward(s, t, s.pcs[t], ok), t, s.pcs[t].job)
  {
    hide Last, Top, JobOk;
  }

  lemma {:induction false} GoMainMoves(s: Sys, t: nat)
    requires Inside(s, t, MainLoop) && s.pcs[t].MainHas?
    ensures Moves(s, GoMain(s, t, s.pcs[t]), t, s.pcs[t].job)
  {
    hide Last, Top;
  }

  /** A step of an activity inside a call. */
  lemma {:induction false} ProceedFine(s: Sys, t: nat, ok: bool)
    requires PcOk(s, t) && Active(s, t) && !s.pcs[t].Idle? && JobOk(s, s.pcs[t].job)
    ensures Fine(s, Proceed(s, t, ok), t, s.pcs[t].job) && Moves(s, Proceed(s, t, ok), t, s.pcs[t].job)
  {
    hide Fine, JobOk, Moves, Top;
    var pc := s.pcs[t];
    assert JobOk(s, pc.job) && pc.job in s.jobs;
    if Stopping(pc) {
      var from := if pc.MainRan? then Started else Starting;
      StopFine(s, t, from);
      StopMoves(s, t, from);
      assert Proceed(s, t, ok) == Stop(s, t, pc.job, from);
      return;
    }
    hide GoWork, GoAsync, GoWorker, GoForward, GoMain;
    if Inserting(pc) { InsertMoves(s, t, ok); }
    match RoleOf(pc)
    case NoRole =>
    case WorkStarter =>
      if Inserting(pc) {
        WorkInsertFine(s, t, ok);
      } else {
        GoWorkMoves(s, t, ok);
        if Entering(pc) { GoWorkFine(s, t, ok); } else { GoWorkOutFine(s, t, ok); }
      }
    case AsyncStarter =>
      if Inserting(pc) {
        AsyncInsertFine(s, t, ok);
      } else {
        GoAsyncMoves(s, t, ok);
        if Entering(pc) {
          GoAsyncFine(s, t, ok);
        } else if pc.AsyncStarted? {
          AsyncUnlockFine(s, t, ok);
        } else {
          GoAsyncOutFine(s, t, ok);
        }
      }
    case Worker =>
      if pc.WorkerHas? {
        WorkerRunsFine(s, t);
      } else {
        GoWorkerFine(s, t);
        GoWorkerMoves(s, t);
      }
    case Forwarder =>
      if Inserting(pc) {
        ForwardInsertFine(s, t, ok);
      } else {
        if pc.ForwardDone? { ForwardUnlockFine(s, t, ok); } else { GoForwardFine(s, t, ok); }
        GoForwardMoves(s, t, ok);
      }
    case MainLoop =>
      GoMainFine(s, t);
      GoMainMoves(s, t);
  }

  /** The first step of a call. */
  lemma {:induction false} EnterFine(s: Sys, t: nat, a: Action)
    requires Inv(s) && Active(s, t) && s.pcs[t].Idle? && IsCall(a) && Enter(s, t, a) != s
    ensures a.job in s.jobs && Fine(s, Enter(s, t, a), t, a.job) && Moves(s, Enter(s, t, a), t, a.job)
  {
    hide Fine, JobOk, Moves, Top, StackOk;
    assert PcOk(s, t) && a.job in s.jobs;
    if a.TakeJob? {
      TakeJobFine(s, t, a.job);
      TakeMoves(s, t, a);
    } else if a.TakeAsync? {
      TakeAsyncFine(s, t, a.job);
      TakeMoves(s, t, a);
    } else {
      StartFine(s, t, a);
      StartMoves(s, t, a);
    }
  }

  /** The job a step of `t` is about. */
  function Subject(s: Sys, t: nat, a: Action): nat {
    if t in s.pcs && !s.pcs[t].Idle? then s.pcs[t].job else if IsCall(a) then a.job else 0
  }

  lemma {:induction false} StepFine(s: Sys, t: nat, a: Action)
    requires Inv(s) && !a.Cancel? && !IsSwitch(a) && Step(s, t, a) != s
    ensures Subject(s, t, a) in s.jobs && Fine(s, Step(s, t, a), t, Subject(s, t, a))
    ensures Moves(s, Step(s, t, a), t, Subject(s, t, a))
  {
    hide Fine, JobOk, Moves, Top, StackOk, Enter, PcOk;
    assert PcOk(s, t);
    if a.Go? {
      InCall(s, t);
      ProceedFine(s, t, a.ok);
    } else {
      EnterFine(s, t, a);
    }
  }

  lemma {:induction false} InCall(s: Sys, t: nat)
    requires Inv(s) && t in s.pcs && !s.pcs[t].Idle?
    ensures JobOk(s, s.pcs[t].job) && s.pcs[t].job in s.jobs
  {
    hide JobOk, Top, StackOk;
    assert PcOk(s, t);
  }

  /** Cancelling sets a flag and nothing else. */
  lemma {:induction false} CancelOnly(s: Sys, t: nat, a: Action)
    requires a.Cancel?
    ensures var r := Step(s, t, a);
      && r == s.(jobs := r.jobs) && r.jobs.Keys == s.jobs.Keys
      && forall j :: j in s.jobs ==>
           && r.jobs[j].kind == s.jobs[j].kind && r.jobs[j].state == s.jobs[j].state
           && r.jobs[j].done == s.jobs[j].done
           && r.jobs[j].cancelled == (j == a.job || s.jobs[j].cancelled)
           && (j != a.job ==> r.jobs[j] == s.jobs[j])
  {
  }

  lemma {:induction false} CancelKeeps(s: Sys, t: nat, a: Action)
    requires Inv(s) && a.Cancel?
    ensures Inv(Step(s, t, a))
  {
    hide Step, StackOk, JobOk, PcOk;
    CancelOnly(s, t, a);
    var r := Step(s, t, a);
    SameStacks(s, r);
    forall k | k in r.jobs ensures JobOk(r, k) { CancelledJob(s, r, k); }
    forall u | u in r.pcs ensures PcOk(r, u) { CancelledActivity(s, r, u); }
  }

  lemma {:induction false} CancelledJob(s: Sys, r: Sys, j: nat)
    requires JobOk(s, j) && r == s.(jobs := r.jobs) && j in r.jobs
    requires r.jobs[j].kind == s.jobs[j].kind && r.jobs[j].state == s.jobs[j].state
    ensures JobOk(r, j)
  {
    hide Last, Inner;
  }

  lemma {:induction false} CancelledActivity(s: Sys, r: Sys, t: nat)
    requires PcOk(s, t) && r == s.(jobs := r.jobs) && r.jobs.Keys == s.jobs.Keys
    requires forall j :: j in s.jobs ==> r.jobs[j].state == s.jobs[j].state
    ensures PcOk(r, t)
  {
    hide Top;
  }

  // ------------------------------------------------------ calls within calls

  /** A switch moves the top of one thread's stack from an activity that runs a user
      function, or does nothing, to another such one. */
  ghost predicate Switches(s: Sys, r: Sys, h: nat, from: nat, to: nat) {
    && r == s.(stack := r.stack) && h in s.stack && h in r.stack && r.stack == s.stack[h := r.stack[h]]
    && StackOk(s, h) && StackOk(r, h)
    && Inner(s.stack, h) == from && Inner(r.stack, h) == to
    && PcOk(s, from) && PcOk(s, to)
    && (s.pcs[from].Idle? || RunsUser(s.pcs[from])) && (s.pcs[to].Idle? || RunsUser(s.pcs[to]))
  }

  lemma {:induction false} SwitchFine(s: Sys, t: nat, a: Action) returns (to: nat)
    requires Inv(s) && Active(s, t) && IsSwitch(a) && Switch(s, t, a) != s
    ensures Switches(s, Switch(s, t, a), s.host[t], t, to)
  {
    hide JobOk;
    var r, h := Switch(s, t, a), s.host[t];
    var k := s.stack[h];
    assert PcOk(s, t) && StackOk(s, h);
    to := Inner(r.stack, h);
    if a.Return? { assert to == k[|k| - 2] && k[|k| - 2] != k[|k| - 1]; }
    assert PcOk(s, to);
    assert StackOk(r, h);
  }

  lemma {:induction false} SwitchedActivity(s: Sys, r: Sys, h: nat, from: nat, to: nat, u: nat)
    requires Switches(s, r, h, from, to) && PcOk(s, u)
    ensures PcOk(r, u)
  {
    hide StackOk;
  }

  lemma {:induction false} SwitchedJob(s: Sys, r: Sys, h: nat, from: nat, to: nat, j: nat)
    requires Switches(s, r, h, from, to) && JobOk(s, j)
    ensures JobOk(r, j)
  {
    hide Last, StackOk, Top;
  }

  lemma {:induction false} OtherStack(s: Sys, r: Sys, h: nat)
    requires h in s.stack && h in r.stack && StackOk(s, h) && r.stack[h] == s.stack[h]
    requires r.pcs == s.pcs && r.host == s.host
    ensures StackOk(r, h)
  {
  }

  lemma {:induction false} SwitchKeeps(s: Sys, t: nat, a: Action)
    requires Inv(s) && Active(s, t) && IsSwitch(a)
    ensures Inv(Switch(s, t, a))
  {
    hide JobOk, PcOk, StackOk, Switch;
    var r := Switch(s, t, a);
    if r != s {
      var h := s.host[t];
      var to := SwitchFine(s, t, a);
      forall j | j in r.jobs ensures JobOk(r, j) { SwitchedJob(s, r, h, t, to, j); }
      forall u | u in r.pcs ensures PcOk(r, u) { SwitchedActivity(s, r, h, t, to, u); }
      forall g | g in r.stack ensures StackOk(r, g) {
        if g != h { OtherStack(s, r, g); }
      }
    }
  }

  /** A user function may call in with any idle activity of its thread; the call runs in
      its place, and when it returns everything is as the call left it. */
  lemma {:induction false} NestAndReturn(s: Sys, t: nat, u: nat)
    requires Inv(s) && Active(s, t) && (s.pcs[t].WorkerRan? || s.pcs[t].MainRan?)
    requires u in s.pcs && s.pcs[u].Idle? && Thread(s, u) == Thread(s, t) && u !in s.stack[s.host[t]]
    ensures var r := Step(s, t, Nest(u));
      && Active(r, u) && !Active(r, t) && r == s.(stack := r.stack)
      && Step(r, u, Return) == s
  {
    hide JobOk;
    assert PcOk(s, t) && PcOk(s, u) && StackOk(s, s.host[t]);
    var h, k := s.host[t], s.stack[s.host[t]];
    var r := Step(s, t, Nest(u));
    assert r.stack[h] == k + [u] && (k + [u])[..|k|] == k;
    assert r.stack[h := k] == s.stack;
  }

  lemma {:induction false} SwitchStep(s: Sys, t: nat, a: Action)
    requires IsSwitch(a)
    ensures Step(s, t, a) == if Active(s, t) then Switch(s, t, a) else s
  {
  }

  /** Every step of every activity keeps the invariant. */
  lemma {:induction false} StepKeeps(s: Sys, t: nat, a: Action)
    requires Inv(s)
    ensures Inv(Step(s, t, a))
  {
    hide Inv, JobOk, PcOk, Local, Step, Switch, Active;
    if a.Cancel? {
      CancelKeeps(s, t, a);
    } else if IsSwitch(a) {
      SwitchStep(s, t, a);
      if Active(s, t) { SwitchKeeps(s, t, a); }
    } else if Step(s, t, a) != s {
      StepFine(s, t, a);
      LocalKeeps(s, Step(s, t, a), t, Subject(s, t, a));
    }
  }
}
