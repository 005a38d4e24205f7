/** What holds of jobs in every run of every number of threads, each with calls within
    calls. */
module MloopRuns {
  import opened Common
  import opened Mloop
  import opened MloopSteps

  datatype Turn = Turn(activity: nat, action: Action)

  function Run(s: Sys, turns: seq<Turn>): Sys
    decreases |turns|
  {
    if turns == [] then s else Run(Step(s, turns[0].activity, turns[0].action), turns[1..])
  }

  /** A system at rest: every activity idle and on a thread, every job stopped, nothing
      logged, no lock held. */
  ghost predicate AtRest(s: Sys) {
    && s.place.Keys == s.jobs.Keys && s.jobQueue == multiset{} && s.asyncQueue == multiset{}
    && (forall j :: j in s.jobs ==> s.jobs[j].state == Stopped && s.place[j] == Nowhere)
    && (forall t :: t in s.pcs ==> s.pcs[t].Idle? && t in s.host && s.host[t] in s.stack)
    && (forall h :: h in s.stack ==> StackOk(s, h))
    && s.jobLock.depth == 0 && s.asyncLock.depth == 0 && s.log == [] && s.leaks == 0
  }

  lemma {:induction false} RestHolds(s: Sys)
    requires AtRest(s)
    ensures Inv(s) && LocksOk(s) && WellOrdered(s.log, s.jobs)
  {
    hide StackOk, Last;
  }

  lemma {:induction false} RunKeeps(s: Sys, turns: seq<Turn>)
    requires Inv(s)
    ensures Inv(Run(s, turns))
    decreases |turns|
  {
    hide Inv, Step;
    if turns != [] {
      StepKeeps(s, turns[0].activity, turns[0].action);
      RunKeeps(Step(s, turns[0].activity, turns[0].action), turns[1..]);
    }
  }

  /** In every reachable state a job is in at most one place: once in one queue, or
      in the hands of one activity, or nowhere, and nowhere exactly when stopped. */
  lemma {:induction false} OnePlace(s: Sys, turns: seq<Turn>, j: nat, t: nat, u: nat)
    requires AtRest(s)
    ensures var r := Run(s, turns);
      j in r.jobs && t in r.pcs && u in r.pcs ==>
        && r.jobQueue[j] + r.asyncQueue[j] + (if j in Holds(r.pcs[t]) then 1 else 0) <= 1
        && (j in Holds(r.pcs[t]) && j in Holds(r.pcs[u]) ==> t == u)
        && (r.jobs[j].state == Stopped ==> r.jobQueue[j] == 0 && r.asyncQueue[j] == 0 && j !in Holds(r.pcs[t]))
  {
    hide Run, Last, StackOk, Top;
    RestHolds(s);
    RunKeeps(s, turns);
    var r := Run(s, turns);
    if j in r.jobs && t in r.pcs && u in r.pcs {
      assert JobOk(r, j) && PcOk(r, t) && PcOk(r, u);
    }
  }

  /** In every reachable state the main loop can only take a started job. */
  lemma {:induction false} OnlyStartedIsTaken(s: Sys, turns: seq<Turn>, t: nat, j: nat)
    requires AtRest(s)
    ensures var r := Run(s, turns);
      Active(r, t) && r.pcs[t].Idle? && j in r.asyncQueue && CanLock(r.asyncLock, Thread(r, t)) ==>
        j in r.jobs && r.jobs[j].state == Started
  {
    hide Run, Last, StackOk, JobOk, PcOk;
    RestHolds(s);
    RunKeeps(s, turns);
    var r := Run(s, turns);
    if Active(r, t) && r.pcs[t].Idle? && j in r.asyncQueue && CanLock(r.asyncLock, Thread(r, t)) {
      TakenIsStarted(r, t, j);
    }
  }

  // ------------------------------------------------------------------ states

  /** The state an activity's next compare-and-swap expects. */
  function Expects(pc: Pc): Option<State> {
    match pc
    case WorkUnwinding(_) => Some(Starting)
    case AsyncInserted(_) => Some(Starting)
    case AsyncUnwinding(_) => Some(Starting)
    case WorkerRetiring(_) => Some(Starting)
    case ForwardInserted(_) => Some(Starting)
    case ForwardFailed(_) => Some(Starting)
    case MainRan(_) => Some(Started)
    case _ => None
  }

  /** No compare-and-swap after a claim ever fails, so every `assert(rc == 0)` holds. */
  lemma {:induction false} SwapsSucceed(s: Sys, turns: seq<Turn>, t: nat)
    requires AtRest(s)
    ensures var r := Run(s, turns);
      t in r.pcs && Expects(r.pcs[t]).Some? ==>
        r.pcs[t].job in r.jobs && r.jobs[r.pcs[t].job].state == Expects(r.pcs[t]).value
  {
    hide Run, Last, StackOk, Top;
    RestHolds(s);
    RunKeeps(s, turns);
    var r := Run(s, turns);
    if t in r.pcs && Expects(r.pcs[t]).Some? {
      assert PcOk(r, t) && JobOk(r, r.pcs[t].job);
    }
  }

  /** A switch changes nothing but stacks. */
  lemma {:induction false} SwitchOnly(s: Sys, t: nat, a: Action)
    requires IsSwitch(a)
    ensures var r := Step(s, t, a); r == s.(stack := r.stack)
  {
  }

  /** States only move along Stopped, Starting, Started and back to Stopped. */
  lemma {:induction false} StatesMoveAlongEdges(s: Sys, t: nat, a: Action, j: nat)
    requires Inv(s) && j in s.jobs
    ensures j in Step(s, t, a).jobs && Edge(s.jobs[j].state, Step(s, t, a).jobs[j].state)
    ensures Step(s, t, a).jobs[j].kind == s.jobs[j].kind
  {
    hide Step, Fine, Inv, Follows, LockMoves, Top;
    if a.Cancel? {
      CancelOnly(s, t, a);
    } else if IsSwitch(a) {
      SwitchOnly(s, t, a);
    } else if Step(s, t, a) != s {
      StepFine(s, t, a);
    }
  }

  // ---------------------------------------------------------------- progress

  /** An upper bound on the steps an activity has left before it is idle. */
  function Left(pc: Pc): nat {
    match pc
    case Idle => 0
    case WorkClaimed(_) => 5
    case WorkReset(_) => 4
    case WorkLocked(_) => 3
    case WorkInserted(_) => 1
    case WorkFailed(_) => 2
    case WorkUnwinding(_) => 1
    case AsyncClaimed(_) => 5
    case AsyncLocked(_) => 4
    case AsyncReset(_) => 3
    case AsyncInserted(_) => 2
    case AsyncStarted(_) => 1
    case AsyncFailed(_) => 2
    case AsyncUnwinding(_) => 1
    case WorkerHas(_) => 5
    case WorkerRan(_) => 4
    case WorkerRetiring(_) => 1
    case ForwardLocked(_) => 3
    case ForwardInserted(_) => 2
    case ForwardFailed(_) => 2
    case ForwardDone(_) => 1
    case MainHas(_) => 2
    case MainRan(_) => 1
  }

  /** The activity's next step is to take a lock that another thread has. */
  predicate Blocked(s: Sys, t: nat)
    requires t in s.pcs
  {
    || (s.pcs[t].WorkReset? && !CanLock(s.jobLock, Thread(s, t)))
    || (s.pcs[t].AsyncClaimed? && !CanLock(s.asyncLock, Thread(s, t)))
    || (&& s.pcs[t].WorkerRan? && s.pcs[t].job in s.jobs && s.jobs[s.pcs[t].job].done
        && !CanLock(s.asyncLock, Thread(s, t)))
  }

  ghost predicate Nearer(s: Sys, r: Sys, t: nat) {
    && t in s.pcs && t in r.pcs
    && if Blocked(s, t) then r == s else Left(r.pcs[t]) < Left(s.pcs[t])
  }

  /** In every state of every run, the innermost activity of a thread comes nearer to
      being idle with each of its steps, unless it waits for a lock of another thread; so
      every call, and every round of a worker and of the main loop, ends within five. */
  lemma {:induction false} MovesOn(s: Sys, t: nat, ok: bool)
    requires Inv(s) && Active(s, t) && !s.pcs[t].Idle?
    ensures Nearer(s, Step(s, t, Go(ok)), t)
  {
    hide JobOk, StackOk, Top, Blocked, Left, Nearer, GoWork, GoAsync, GoWorker, GoForward, GoMain;
    assert PcOk(s, t);
    match RoleOf(s.pcs[t])
    case NoRole =>
    case WorkStarter => WorkMovesOn(s, t, ok);
    case AsyncStarter => AsyncMovesOn(s, t, ok);
    case Worker => WorkerMovesOn(s, t, ok);
    case Forwarder => ForwardMovesOn(s, t, ok);
    case MainLoop => MainMovesOn(s, t, ok);
  }

  lemma {:induction false} WorkMovesOn(s: Sys, t: nat, ok: bool)
    requires t in s.pcs && !s.pcs[t].Idle? && s.pcs[t].job in s.jobs && RoleOf(s.pcs[t]) == WorkStarter
    ensures Nearer(s, GoWork(s, t, s.pcs[t], ok), t)
  {
  }

  lemma {:induction false} AsyncMovesOn(s: Sys, t: nat, ok: bool)
    requires t in s.pcs && !s.pcs[t].Idle? && s.pcs[t].job in s.jobs && RoleOf(s.pcs[t]) == AsyncStarter
    ensures Nearer(s, GoAsync(s, t, s.pcs[t], ok), t)
  {
  }

  lemma {:induction false} WorkerMovesOn(s: Sys, t: nat, ok: bool)
    requires t in s.pcs && !s.pcs[t].Idle? && s.pcs[t].job in s.jobs && RoleOf(s.pcs[t]) == Worker
    ensures Nearer(s, GoWorker(s, t, s.pcs[t]), t)
  {
  }

  lemma {:induction false} ForwardMovesOn(s: Sys, t: nat, ok: bool)
    requires t in s.pcs && !s.pcs[t].Idle? && s.pcs[t].job in s.jobs && RoleOf(s.pcs[t]) == Forwarder
    ensures Nearer(s, GoForward(s, t, s.pcs[t], ok), t)
  {
  }

  lemma {:induction false} MainMovesOn(s: Sys, t: nat, ok: bool)
    requires t in s.pcs && !s.pcs[t].Idle? && s.pcs[t].job in s.jobs && RoleOf(s.pcs[t]) == MainLoop
    ensures Nearer(s, GoMain(s, t, s.pcs[t]), t)
  {
  }

  /** The job of a start that takes effect: claimed, and in the hands of the caller. */
  function Claimed(s: Sys, t: nat, j: nat, pc: Pc): Sys
    requires j in s.jobs
  {
    InHands(s, t, j, pc).(jobs := s.jobs[j := s.jobs[j].(state := Starting)])
  }

  /** A start claims its job if and only if it is stopped. */
  lemma {:induction false} StartClaims(s: Sys, t: nat, j: nat)
    requires Active(s, t) && s.pcs[t].Idle? && j in s.jobs
    ensures s.jobs[j].kind == Work ==>
      Step(s, t, StartWork(j)) == if s.jobs[j].state == Stopped then Claimed(s, t, j, WorkClaimed(j)) else s
    ensures s.jobs[j].kind == Async ==>
      Step(s, t, StartAsync(j)) == if s.jobs[j].state == Stopped then Claimed(s, t, j, AsyncClaimed(j)) else s
  {
    hide Top;
  }

  /** A queued job can be taken if and only if no other thread has the lock. */
  lemma {:induction false} QueuedCanBeTaken(s: Sys, t: nat, j: nat)
    requires Active(s, t) && s.pcs[t].Idle?
    ensures Step(s, t, TakeJob(j)) ==
      if j in s.jobQueue && CanLock(s.jobLock, Thread(s, t)) then
        InHands(s, t, j, WorkerHas(j)).(jobQueue := s.jobQueue - multiset{j})
      else s
    ensures Step(s, t, TakeAsync(j)) ==
      if j in s.asyncQueue && CanLock(s.asyncLock, Thread(s, t)) then
        InHands(s, t, j, MainHas(j)).(asyncQueue := s.asyncQueue - multiset{j})
      else s
  {
    hide Top, CanLock;
  }

  /** A job in the hands of an activity. */
  function InHands(s: Sys, t: nat, j: nat, pc: Pc): Sys {
    s.(pcs := s.pcs[t := pc], place := s.place[j := Held(t)])
  }

  // ----------------------------------------------------------------- history

  ghost predicate WellOrdered(log: seq<Entry>, jobs: map<nat, Job>) {
    log != [] ==>
      var before, e := log[..|log| - 1], log[|log| - 1];
      WellOrdered(before, jobs) && e.job in jobs && Follows(before, e, jobs[e.job].kind)
  }

  lemma {:induction false} SameKinds(log: seq<Entry>, a: map<nat, Job>, b: map<nat, Job>)
    requires WellOrdered(log, a) && a.Keys == b.Keys && forall j :: j in a ==> b[j].kind == a[j].kind
    ensures WellOrdered(log, b)
    decreases |log|
  {
    if log != [] { SameKinds(log[..|log| - 1], a, b); }
  }

  lemma {:induction false} OneMoreEntry(log: seq<Entry>, e: Entry, jobs: map<nat, Job>)
    requires WellOrdered(log, jobs) && e.job in jobs && Follows(log, e, jobs[e.job].kind)
    ensures WellOrdered(log + [e], jobs)
  {
    hide Follows;
    assert (log + [e])[..|log|] == log;
  }

  lemma {:induction false} MovesLog(s: Sys, r: Sys, t: nat, j: nat)
    requires Moves(s, r, t, j) && WellOrdered(s.log, s.jobs)
    ensures WellOrdered(r.log, r.jobs)
  {
    hide WellOrdered, Follows, LockMoves, Top, Edge;
    if r.log != s.log {
      var e: Entry :| e.job == j && r.log == s.log + [e] && Follows(s.log, e, s.jobs[j].kind);
      OneMoreEntry(s.log, e, s.jobs);
    }
    SameKinds(r.log, s.jobs, r.jobs);
  }

  lemma {:induction false} StepLog(s: Sys, t: nat, a: Action)
    requires Inv(s) && WellOrdered(s.log, s.jobs)
    ensures WellOrdered(Step(s, t, a).log, Step(s, t, a).jobs)
  {
    hide Step, Fine, Inv, Moves, WellOrdered;
    var r := Step(s, t, a);
    if a.Cancel? {
      CancelOnly(s, t, a);
      SameKinds(s.log, s.jobs, r.jobs);
    } else if IsSwitch(a) {
      SwitchOnly(s, t, a);
    } else if r != s {
      StepFine(s, t, a);
      MovesLog(s, r, t, Subject(s, t, a));
    }
  }

  lemma {:induction false} RunLog(s: Sys, turns: seq<Turn>)
    requires Inv(s) && WellOrdered(s.log, s.jobs)
    ensures WellOrdered(Run(s, turns).log, Run(s, turns).jobs)
    decreases |turns|
  {
    hide Inv, Step, WellOrdered;
    if turns != [] {
      var t, a := turns[0].activity, turns[0].action;
      StepLog(s, t, a);
      StepKeeps(s, t, a);
      RunLog(Step(s, t, a), turns[1..]);
    }
  }

  function Count(log: seq<Entry>, e: Entry): nat {
    if log == [] then 0 else Count(log[..|log| - 1], e) + (if log[|log| - 1] == e then 1 else 0)
  }

  /** Each start that succeeds is followed by at most one run of the work function and
      at most one of the done function. */
  lemma {:induction false} OncePerStart(log: seq<Entry>, jobs: map<nat, Job>, j: nat)
    requires WellOrdered(log, jobs) && j in jobs
    ensures Count(log, Worked(j)) + (if Last(log, j) == Begun(j) then 1 else 0) <= Count(log, Begun(j))
    ensures jobs[j].kind == Work ==>
      Count(log, Finished(j)) + (if Last(log, j) == Worked(j) then 1 else 0) <= Count(log, Worked(j))
    ensures jobs[j].kind == Async ==>
      Count(log, Finished(j)) + (if Last(log, j) == Begun(j) then 1 else 0) <= Count(log, Begun(j))
    decreases |log|
  {
    if log != [] { OncePerStart(log[..|log| - 1], jobs, j); }
  }

  /** Over every run from rest: a start is logged when its insertion succeeds, which is
      when the call returns 0, so a start that is refused gives no run of either
      function. */
  lemma {:induction false} HistoryOfEveryRun(s: Sys, turns: seq<Turn>, j: nat)
    requires AtRest(s)
    ensures var r := Run(s, turns);
      && WellOrdered(r.log, r.jobs)
      && (j in r.jobs ==>
            && Count(r.log, Worked(j)) <= Count(r.log, Begun(j))
            && Count(r.log, Finished(j)) <= Count(r.log, Begun(j))
            && (r.jobs[j].kind == Work ==> Count(r.log, Finished(j)) <= Count(r.log, Worked(j))))
  {
    hide Run, Last, Count, Inv, LocksOk, WellOrdered;
    RestHolds(s);
    RunLog(s, turns);
    var r := Run(s, turns);
    if j in r.jobs { OncePerStart(r.log, r.jobs, j); }
  }

  /** A start returns 0 by the step that logs it: from claim to return, an insertion
      that succeeds logs it once and a failed one does not. */
  lemma {:induction false} LoggedWhenInserted(s: Sys, t: nat, ok: bool)
    requires Inv(s) && Active(s, t) && (s.pcs[t].WorkLocked? || s.pcs[t].AsyncReset?)
    ensures var r := Step(s, t, Go(ok));
      && r.log == (if ok then s.log + [Begun(s.pcs[t].job)] else s.log)
      && t in r.pcs
      && (ok <==> r.pcs[t].WorkInserted? || r.pcs[t].AsyncInserted?)
      && (!ok <==> r.pcs[t].WorkFailed? || r.pcs[t].AsyncFailed?)
  {
    hide JobOk, StackOk, Top;
    assert PcOk(s, t);
  }

  // ------------------------------------------------------------------- locks

  /** The innermost activity of the thread that owns a lock. */
  function Holder(s: Sys, l: Lock): Pc {
    var t := Inner(s.stack, l.owner);
    if t in s.pcs then s.pcs[t] else Idle
  }

  /** Each lock is held as deep as its owner's code says, and once more for every
      insertion that mloop_async_start failed to make. */
  ghost predicate LocksOk(s: Sys) {
    && (s.jobLock.depth > 0 ==> InJobSection(Holder(s, s.jobLock)) && s.jobLock.depth == 1)
    && (s.asyncLock.depth == 0 ==> s.leaks == 0)
    && (s.asyncLock.depth > 0 ==>
          s.asyncLock.depth == s.leaks + if InAsyncSection(Holder(s, s.asyncLock)) then 1 else 0)
  }

  lemma {:induction false} MovesLocks(s: Sys, r: Sys, t: nat, j: nat)
    requires Moves(s, r, t, j) && LocksOk(s)
    ensures LocksOk(r) && s.leaks <= r.leaks && (s.leaks > 0 ==> r.asyncLock.owner == s.asyncLock.owner)
  {
    hide Follows, Edge;
  }

  lemma {:induction false} SwitchLocks(s: Sys, r: Sys, h: nat, from: nat, to: nat)
    requires Switches(s, r, h, from, to) && LocksOk(s)
    ensures LocksOk(r)
  {
    hide StackOk, Top;
  }

  lemma {:induction false} StepLocks(s: Sys, t: nat, a: Action)
    requires Inv(s) && LocksOk(s)
    ensures LocksOk(Step(s, t, a)) && s.leaks <= Step(s, t, a).leaks
    ensures s.leaks > 0 ==> Step(s, t, a).asyncLock.owner == s.asyncLock.owner
  {
    hide Step, Fine, Inv, Moves, Switches, LocksOk, Switch;
    var r := Step(s, t, a);
    if a.Cancel? {
      CancelOnly(s, t, a);
      SameLocks(s, r);
    } else if IsSwitch(a) {
      SwitchOnly(s, t, a);
      SwitchStep(s, t, a);
      if r != s {
        var to := SwitchFine(s, t, a);
        SwitchLocks(s, r, s.host[t], t, to);
      }
    } else if r != s {
      StepFine(s, t, a);
      MovesLocks(s, r, t, Subject(s, t, a));
    }
  }

  lemma {:induction false} SameLocks(s: Sys, r: Sys)
    requires LocksOk(s) && r == s.(jobs := r.jobs)
    ensures LocksOk(r)
  {
  }

  lemma {:induction false} RunLocks(s: Sys, turns: seq<Turn>)
    requires Inv(s) && LocksOk(s)
    ensures Inv(Run(s, turns)) && LocksOk(Run(s, turns))
    decreases |turns|
  {
    hide Inv, LocksOk, Step;
    if turns != [] {
      StepLocks(s, turns[0].activity, turns[0].action);
      StepKeeps(s, turns[0].activity, turns[0].action);
      RunLocks(Step(s, turns[0].activity, turns[0].action), turns[1..]);
    }
  }

  /** The main loop's queue is unlocked whenever no activity is inside it, exactly as
      long as mloop_async_start has not failed to insert. */
  lemma {:induction false} FreeUnlessLeaked(s: Sys, turns: seq<Turn>)
    requires AtRest(s)
    ensures var r := Run(s, turns);
      (forall t :: t in r.pcs ==> !InAsyncSection(r.pcs[t])) ==>
        (r.asyncLock.depth == 0 <==> r.leaks == 0)
  {
    hide Run, Inv;
    RestHolds(s);
    RunLocks(s, turns);
  }

  /** Once it has failed, the lock stays with the thread that failed for good: whatever
      happens, no activity of any other thread can lock that queue again, so none takes
      a job from it or inserts one. */
  lemma {:induction false} LeakedForGood(s: Sys, turns: seq<Turn>)
    requires Inv(s) && LocksOk(s) && s.leaks > 0
    ensures var r := Run(s, turns);
      && r.asyncLock.depth > 0 && r.asyncLock.owner == s.asyncLock.owner
      && forall u :: u in r.host && Thread(r, u) != s.asyncLock.owner ==> !CanLock(r.asyncLock, Thread(r, u))
    decreases |turns|
  {
    hide Inv, LocksOk, Step;
    LeakHolds(s);
    if turns != [] {
      var t, a := turns[0].activity, turns[0].action;
      StepLocks(s, t, a);
      StepKeeps(s, t, a);
      LeakedForGood(Step(s, t, a), turns[1..]);
    }
  }

  lemma {:induction false} LeakHolds(s: Sys)
    requires LocksOk(s) && s.leaks > 0
    ensures s.asyncLock.depth > 0
  {
  }

  /** A start of an async job whose insertion fails. */
  function FailedStart(t: nat, j: nat): seq<Turn> {
    [Turn(t, StartAsync(j)), Turn(t, Go(true)), Turn(t, Go(true)), Turn(t, Go(false))]
  }

  /** It does happen: from rest, one failed insertion is enough, and from then on, in
      every continuation, every other thread is locked out. */
  lemma {:induction false} OneFailureLocksOut(s: Sys, t: nat, j: nat, more: seq<Turn>)
    requires AtRest(s) && Active(s, t) && j in s.jobs && s.jobs[j].kind == Async
    ensures var r := Run(s, FailedStart(t, j));
      && r.leaks == 1 && r.asyncLock == Lock(Thread(s, t), 1)
      && forall u :: u in Run(r, more).host && Thread(Run(r, more), u) != Thread(s, t) ==>
           !CanLock(Run(r, more).asyncLock, Thread(Run(r, more), u))
  {
    hide Inv, LocksOk, Top;
    RestHolds(s);
    FailedStartRuns(s, t, j);
    RunLocks(s, FailedStart(t, j));
    LeakedForGood(Run(s, FailedStart(t, j)), more);
  }

  /** An activity inside the start of job `j`, on its thread's top. */
  ghost predicate Midway(s: Sys, t: nat, j: nat, pc: Pc, lock: Lock, leaks: nat) {
    Active(s, t) && s.pcs[t] == pc && j in s.jobs && s.asyncLock == lock && s.leaks == leaks
  }

  lemma {:induction false} ClaimTurn(s: Sys, t: nat, j: nat)
    requires Midway(s, t, j, Idle, s.asyncLock, 0) && s.jobs[j].kind == Async && s.jobs[j].state == Stopped
    ensures var r := Step(s, t, StartAsync(j));
      Midway(r, t, j, AsyncClaimed(j), s.asyncLock, 0) && Thread(r, t) == Thread(s, t)
  {
    hide Top;
  }

  lemma {:induction false} LockTurn(s: Sys, t: nat, j: nat, l: Lock)
    requires Midway(s, t, j, AsyncClaimed(j), l, 0) && l.depth == 0
    ensures var r := Step(s, t, Go(true));
      Midway(r, t, j, AsyncLocked(j), Lock(Thread(s, t), 1), 0) && Thread(r, t) == Thread(s, t)
  {
    hide Top;
  }

  lemma {:induction false} ResetTurn(s: Sys, t: nat, j: nat, l: Lock)
    requires Midway(s, t, j, AsyncLocked(j), l, 0)
    ensures Midway(Step(s, t, Go(true)), t, j, AsyncReset(j), l, 0)
  {
    hide Top;
  }

  lemma {:induction false} FailTurn(s: Sys, t: nat, j: nat, l: Lock)
    requires Midway(s, t, j, AsyncReset(j), l, 0)
    ensures Midway(Step(s, t, Go(false)), t, j, AsyncFailed(j), l, 1)
  {
    hide Top;
  }

  lemma {:induction false} FailedStartRuns(s: Sys, t: nat, j: nat)
    requires AtRest(s) && Active(s, t) && j in s.jobs && s.jobs[j].kind == Async
    ensures var r := Run(s, FailedStart(t, j)); r.leaks == 1 && r.asyncLock == Lock(Thread(s, t), 1)
  {
    hide StackOk, Top, Run, Step;
    var l := Lock(Thread(s, t), 1);
    ClaimTurn(s, t, j);
    var a := Step(s, t, StartAsync(j));
    LockTurn(a, t, j, s.asyncLock);
    var b := Step(a, t, Go(true));
    ResetTurn(b, t, j, l);
    FailTurn(Step(b, t, Go(true)), t, j, l);
    FourTurns(s, t, StartAsync(j), Go(true), Go(true), Go(false));
  }

  lemma {:induction false} FourTurns(s: Sys, t: nat, w: Action, x: Action, y: Action, z: Action)
    ensures Run(s, [Turn(t, w), Turn(t, x), Turn(t, y), Turn(t, z)])
      == Step(Step(Step(Step(s, t, w), t, x), t, y), t, z)
  {
    hide Step;
    var turns := [Turn(t, w), Turn(t, x), Turn(t, y), Turn(t, z)];
    assert turns[1..][0] == turns[1] && turns[1..][1..] == turns[2..];
    assert turns[2..][0] == turns[2] && turns[2..][1..] == turns[3..];
    assert turns[3..][0] == turns[3] && turns[3..][1..] == [];
    var a := Step(s, t, w);
    var b := Step(a, t, x);
    var c := Step(b, t, y);
    assert Run(s, turns) == Run(a, turns[1..]);
    assert Run(a, turns[1..]) == Run(b, turns[2..]);
    assert Run(b, turns[2..]) == Run(c, turns[3..]);
    assert Run(c, turns[3..]) == Run(Step(c, t, z), []);
  }
}
