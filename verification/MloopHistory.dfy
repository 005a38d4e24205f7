/** What a history contains: every start that succeeded is accounted for, by a run of the
    work function and a run of the done function, or by the step that left one out. */
module MloopHistory {
  import opened Common
  import opened Mloop
  import opened MloopSteps
  import opened MloopRuns

  // ------------------------------------------------------------ single steps

  /** The main loop runs the done function of a job it has taken if and only if there is
      one and the job is not cancelled. */
  lemma {:induction false} MainRunsDone(s: Sys, t: nat, ok: bool, j: nat)
    requires Active(s, t) && s.pcs[t] == MainHas(j) && j in s.jobs
    ensures Step(s, t, Go(ok)).log == s.log + if s.jobs[j].done && !s.jobs[j].cancelled then [Finished(j)] else []
  {
    hide Top;
  }

  /** A worker runs the work function of a job it has taken if and only if the job is not
      cancelled. */
  lemma {:induction false} WorkerRunsWork(s: Sys, t: nat, ok: bool, j: nat)
    requires Active(s, t) && s.pcs[t] == WorkerHas(j) && j in s.jobs
    ensures Step(s, t, Go(ok)).log == s.log + if s.jobs[j].cancelled then [] else [Worked(j)]
  {
    hide Top;
  }

  // ------------------------------------------------------------- the accounts

  /** A worker takes up a job that is cancelled. */
  predicate SkipsWork(s: Sys, t: nat, a: Action, j: nat) {
    Active(s, t) && a.Go? && s.pcs[t] == WorkerHas(j) && j in s.jobs && s.jobs[j].cancelled
  }

  /** So does the main loop; or a worker cannot pass a job on to it. */
  predicate SkipsDone(s: Sys, t: nat, a: Action, j: nat) {
    || SkipsWork(s, t, a, j)
    || (Active(s, t) && a.Go? && s.pcs[t] == MainHas(j) && j in s.jobs && s.jobs[j].cancelled)
    || (Active(s, t) && a == Go(false) && s.pcs[t] == ForwardLocked(j))
  }

  function One(b: bool): nat { if b then 1 else 0 }

  /** The activity that has the job in its hands. */
  function HolderOf(s: Sys, j: nat): Pc {
    if j in s.place && s.place[j].Held? && s.place[j].activity in s.pcs then s.pcs[s.place[j].activity] else Idle
  }

  /** A run of the work function is still to come. */
  predicate OwesWork(s: Sys, j: nat) {
    j in s.place && (s.place[j] == InJobs || HolderOf(s, j).WorkerHas?)
  }

  /** A run of the done function is still to come, if there is one. */
  predicate OwesDone(s: Sys, j: nat) {
    && j in s.place
    && (|| s.place[j] == InJobs || s.place[j] == InAsyncs
        || HolderOf(s, j).WorkerHas? || HolderOf(s, j).WorkerRan? || HolderOf(s, j).ForwardLocked?
        || HolderOf(s, j).MainHas?)
  }

  /** Every start is a run, or left out, or still to come. */
  ghost predicate Balanced(s: Sys, j: nat, works: nat, dones: nat) {
    && j in s.jobs
    && (if s.jobs[j].kind == Work then
          Count(s.log, Begun(j)) == Count(s.log, Worked(j)) + works + One(OwesWork(s, j))
        else Count(s.log, Worked(j)) == 0)
    && (if s.jobs[j].done then
          Count(s.log, Begun(j)) == Count(s.log, Finished(j)) + dones + One(OwesDone(s, j))
        else Count(s.log, Finished(j)) == 0)
  }

  /** What a step adds to the history. */
  ghost predicate Adds(s: Sys, r: Sys, e: Option<Entry>) { r.log == s.log + if e.Some? then [e.value] else [] }

  /** A step keeps the accounts of its job. */
  ghost predicate Keeps(s: Sys, r: Sys, t: nat, a: Action, j: nat, e: Option<Entry>) {
    && j in s.jobs && j in r.jobs && r.jobs[j].kind == s.jobs[j].kind && r.jobs[j].done == s.jobs[j].done
    && Adds(s, r, e) && (e.Some? ==> e.value.job == j)
    && (if s.jobs[j].kind == Work then
          One(e == Some(Begun(j))) + One(OwesWork(s, j))
          == One(e == Some(Worked(j))) + One(SkipsWork(s, t, a, j)) + One(OwesWork(r, j))
        else e != Some(Worked(j)))
    && (if s.jobs[j].done then
          One(e == Some(Begun(j))) + One(OwesDone(s, j))
          == One(e == Some(Finished(j))) + One(SkipsDone(s, t, a, j)) + One(OwesDone(r, j))
        else e != Some(Finished(j)))
  }

  lemma {:induction false} CountAdded(log: seq<Entry>, x: Entry, e: Entry)
    ensures Count(log + [x], e) == Count(log, e) + One(x == e)
  {
    assert (log + [x])[..|log|] == log;
  }

  lemma {:induction false} KeepsBalance(
      s: Sys, r: Sys, t: nat, a: Action, j: nat, e: Option<Entry>, works: nat, dones: nat)
    requires Keeps(s, r, t, a, j, e) && Balanced(s, j, works, dones)
    ensures Balanced(r, j, works + One(SkipsWork(s, t, a, j)), dones + One(SkipsDone(s, t, a, j)))
  {
    hide OwesWork, OwesDone, SkipsWork, SkipsDone, Count;
    if e.Some? {
      CountAdded(s.log, e.value, Begun(j));
      CountAdded(s.log, e.value, Worked(j));
      CountAdded(s.log, e.value, Finished(j));
    } else {
      assert r.log == s.log;
    }
  }

  lemma {:induction false} ClaimKeeps(s: Sys, t: nat, a: Action)
    requires PcOk(s, t) && Active(s, t) && s.pcs[t].Idle? && (a.StartWork? || a.StartAsync?)
    requires JobOk(s, a.job) && Enter(s, t, a) != s
    ensures Keeps(s, Enter(s, t, a), t, a, a.job, None)
  {
    hide Last, Top;
    assert s.log + [] == s.log;
  }

  lemma {:induction false} TakeKeeps(s: Sys, t: nat, a: Action)
    requires PcOk(s, t) && Active(s, t) && s.pcs[t].Idle? && (a.TakeJob? || a.TakeAsync?)
    requires JobOk(s, a.job) && Enter(s, t, a) != s
    ensures Keeps(s, Enter(s, t, a), t, a, a.job, None)
  {
    hide Last, Top;
    assert s.log + [] == s.log;
  }

  lemma {:induction false} EnterKeeps(s: Sys, t: nat, a: Action)
    requires PcOk(s, t) && Active(s, t) && s.pcs[t].Idle? && IsCall(a) && JobOk(s, a.job) && Enter(s, t, a) != s
    ensures Keeps(s, Enter(s, t, a), t, a, a.job, None)
  {
    hide JobOk, PcOk, Top, Enter, Keeps;
    if a.StartWork? || a.StartAsync? { ClaimKeeps(s, t, a); } else { TakeKeeps(s, t, a); }
  }

  /** What the next step of an activity adds to the history. */
  function Logs(s: Sys, pc: Pc, ok: bool): Option<Entry>
    requires pc.Idle? || pc.job in s.jobs
  {
    match pc
    case WorkLocked(j) => if ok then Some(Begun(j)) else None
    case AsyncReset(j) => if ok then Some(Begun(j)) else None
    case WorkerHas(j) => if s.jobs[j].cancelled then None else Some(Worked(j))
    case MainHas(j) => if s.jobs[j].done && !s.jobs[j].cancelled then Some(Finished(j)) else None
    case _ => None
  }

  lemma {:induction false} WorkStartKeeps(s: Sys, t: nat, ok: bool)
    requires Inside(s, t, WorkStarter)
    ensures Keeps(s, GoWork(s, t, s.pcs[t], ok), t, Go(ok), s.pcs[t].job, Logs(s, s.pcs[t], ok))
  {
    hide Last, Top;
    assert s.log + [] == s.log;
  }

  lemma {:induction false} AsyncEnterKeeps(s: Sys, t: nat, ok: bool)
    requires Inside(s, t, AsyncStarter) && Entering(s.pcs[t])
    ensures Keeps(s, GoAsync(s, t, s.pcs[t], ok), t, Go(ok), s.pcs[t].job, Logs(s, s.pcs[t], ok))
  {
    hide Last, Top;
    assert s.log + [] == s.log;
  }

  lemma {:induction false} AsyncLeaveKeeps(s: Sys, t: nat, ok: bool)
    requires Inside(s, t, AsyncStarter) && !Entering(s.pcs[t])
    ensures Keeps(s, GoAsync(s, t, s.pcs[t], ok), t, Go(ok), s.pcs[t].job, Logs(s, s.pcs[t], ok))
  {
    hide Last, Top;
    assert s.log + [] == s.log;
  }

  lemma {:induction false} WorkerKeeps(s: Sys, t: nat, ok: bool)
    requires Inside(s, t, Worker)
    ensures Keeps(s, GoWorker(s, t, s.pcs[t]), t, Go(ok), s.pcs[t].job, Logs(s, s.pcs[t], ok))
  {
    hide Last, Top;
    assert s.log + [] == s.log;
  }

  lemma {:induction false} ForwardKeeps(s: Sys, t: nat, ok: bool)
    requires Inside(s, t, Forwarder)
    ensures Keeps(s, GoForward(s, t, s.pcs[t], ok), t, Go(ok), s.pcs[t].job, Logs(s, s.pcs[t], ok))
  {
    hide Last, Top;
    assert s.log + [] == s.log;
  }

  lemma {:induction false} MainKeeps(s: Sys, t: nat, ok: bool)
    requires Inside(s, t, MainLoop)
    ensures Keeps(s, GoMain(s, t, s.pcs[t]), t, Go(ok), s.pcs[t].job, Logs(s, s.pcs[t], ok))
  {
    hide Last, Top;
    assert s.log + [] == s.log;
  }

  /** The step of an activity inside a call. */
  lemma {:induction false} ProceedKeeps(s: Sys, t: nat, ok: bool)
    requires PcOk(s, t) && Active(s, t) && !s.pcs[t].Idle? && JobOk(s, s.pcs[t].job)
    ensures Keeps(s, Proceed(s, t, ok), t, Go(ok), s.pcs[t].job, Logs(s, s.pcs[t], ok))
  {
    hide Keeps, JobOk, Top, GoWork, GoAsync, GoWorker, GoForward, GoMain, Logs;
    match RoleOf(s.pcs[t])
    case NoRole =>
    case WorkStarter => WorkStartKeeps(s, t, ok);
    case AsyncStarter => if Entering(s.pcs[t]) { AsyncEnterKeeps(s, t, ok); } else { AsyncLeaveKeeps(s, t, ok); }
    case Worker => WorkerKeeps(s, t, ok);
    case Forwarder => ForwardKeeps(s, t, ok);
    case MainLoop => MainKeeps(s, t, ok);
  }

  /** The step of an activity, seen from its own job. */
  lemma {:induction false} SubjectBalance(s: Sys, t: nat, a: Action, works: nat, dones: nat)
    requires Inv(s) && !a.Cancel? && !IsSwitch(a) && Step(s, t, a) != s
    requires Subject(s, t, a) in s.jobs && Balanced(s, Subject(s, t, a), works, dones)
    ensures var j := Subject(s, t, a);
      Balanced(Step(s, t, a), j, works + One(SkipsWork(s, t, a, j)), dones + One(SkipsDone(s, t, a, j)))
  {
    hide JobOk, PcOk, StackOk, Top, Enter, Proceed, Keeps, Balanced, SkipsWork, SkipsDone, Logs, HolderOf;
    assert PcOk(s, t);
    assert JobOk(s, Subject(s, t, a));
    var e := SubjectKeeps(s, t, a);
    KeepsBalance(s, Step(s, t, a), t, a, Subject(s, t, a), e, works, dones);
  }

  lemma {:induction false} SubjectKeeps(s: Sys, t: nat, a: Action) returns (e: Option<Entry>)
    requires !a.Cancel? && !IsSwitch(a) && Step(s, t, a) != s
    requires PcOk(s, t) && Subject(s, t, a) in s.jobs && JobOk(s, Subject(s, t, a))
    ensures Keeps(s, Step(s, t, a), t, a, Subject(s, t, a), e)
  {
    hide JobOk, PcOk, StackOk, Top, Enter, Proceed, Keeps, Logs;
    if a.Go? {
      assert !s.pcs[t].Idle? by { IdleProceeds(s, t, a.ok); }
      ProceedKeeps(s, t, a.ok);
      e := Logs(s, s.pcs[t], a.ok);
    } else {
      EnterKeeps(s, t, a);
      e := None;
    }
  }

  lemma {:induction false} IdleProceeds(s: Sys, t: nat, ok: bool)
    requires t in s.pcs
    ensures s.pcs[t].Idle? ==> Proceed(s, t, ok) == s
  {
  }

  /** A job that the step is not about stays as it is, in its place and its holder's hands. */
  lemma {:induction false} OtherUntouched(s: Sys, r: Sys, t: nat, j: nat, k: nat)
    requires Local(s, r, t, j) && JobOk(s, k) && k != j
    ensures k in r.jobs && r.jobs[k] == s.jobs[k] && k in r.place && r.place[k] == s.place[k]
    ensures HolderOf(r, k) == HolderOf(s, k)
  {
    hide Last, Top;
    if s.place[k].Held? { assert k in Holds(s.pcs[s.place[k].activity]); }
  }

  lemma {:induction false} OtherCounts(s: Sys, r: Sys, t: nat, j: nat, k: nat)
    requires Local(s, r, t, j) && k != j
    ensures Count(r.log, Begun(k)) == Count(s.log, Begun(k))
    ensures Count(r.log, Worked(k)) == Count(s.log, Worked(k))
    ensures Count(r.log, Finished(k)) == Count(s.log, Finished(k))
  {
    hide Count, Top;
    if r.log != s.log {
      var e: Entry :| e.job == j && r.log == s.log + [e];
      CountAdded(s.log, e, Begun(k));
      CountAdded(s.log, e, Worked(k));
      CountAdded(s.log, e, Finished(k));
    }
  }

  lemma {:induction false} OtherBalance(s: Sys, r: Sys, t: nat, a: Action, k: nat, works: nat, dones: nat)
    requires Inv(s) && Fine(s, r, t, Subject(s, t, a)) && k in s.jobs && k != Subject(s, t, a)
    requires Balanced(s, k, works, dones)
    ensures Balanced(r, k, works, dones) && !SkipsWork(s, t, a, k) && !SkipsDone(s, t, a, k)
  {
    hide Count, Local, JobOk, PcOk, StackOk, Top, HolderOf;
    OtherUntouched(s, r, t, Subject(s, t, a), k);
    OtherCounts(s, r, t, Subject(s, t, a), k);
  }

  /** A step that touches neither histories nor places leaves all accounts as they are. */
  lemma {:induction false} SameBalance(s: Sys, r: Sys, k: nat, works: nat, dones: nat)
    requires Balanced(s, k, works, dones) && r.log == s.log && r.place == s.place && r.pcs == s.pcs
    requires k in r.jobs && r.jobs[k].kind == s.jobs[k].kind && r.jobs[k].done == s.jobs[k].done
    ensures Balanced(r, k, works, dones)
  {
  }

  lemma {:induction false} StepBalance(s: Sys, t: nat, a: Action, k: nat, works: nat, dones: nat)
    requires Inv(s) && k in s.jobs && Balanced(s, k, works, dones)
    ensures var r := Step(s, t, a);
      Balanced(r, k, works + One(SkipsWork(s, t, a, k)), dones + One(SkipsDone(s, t, a, k)))
  {
    hide Inv, Step, Fine, Moves, Balanced, Top;
    var r := Step(s, t, a);
    if a.Cancel? {
      CancelOnly(s, t, a);
      SameBalance(s, r, k, works, dones);
    } else if IsSwitch(a) {
      SwitchOnly(s, t, a);
      SameBalance(s, r, k, works, dones);
    } else if r == s {
      NoSkip(s, t, a, k);
    } else {
      StepFine(s, t, a);
      if k == Subject(s, t, a) {
        SubjectBalance(s, t, a, works, dones);
      } else {
        OtherBalance(s, r, t, a, k, works, dones);
      }
    }
  }

  /** Nothing is left out without a step. */
  lemma {:induction false} NoSkip(s: Sys, t: nat, a: Action, k: nat)
    requires Inv(s) && Step(s, t, a) == s
    ensures !SkipsWork(s, t, a, k) && !SkipsDone(s, t, a, k)
  {
    hide JobOk, StackOk, Top;
    if t in s.pcs { assert PcOk(s, t); }
  }

  // ---------------------------------------------------------------- whole runs

  /** How often in a run a job's work function, or its done function, was left out. */
  function WorkSkips(s: Sys, turns: seq<Turn>, j: nat): nat
    decreases |turns|
  {
    if turns == [] then 0
    else
      var t, a := turns[0].activity, turns[0].action;
      One(SkipsWork(s, t, a, j)) + WorkSkips(Step(s, t, a), turns[1..], j)
  }

  function DoneSkips(s: Sys, turns: seq<Turn>, j: nat): nat
    decreases |turns|
  {
    if turns == [] then 0
    else
      var t, a := turns[0].activity, turns[0].action;
      One(SkipsDone(s, t, a, j)) + DoneSkips(Step(s, t, a), turns[1..], j)
  }

  lemma {:induction false} RunBalance(s: Sys, turns: seq<Turn>, j: nat, works: nat, dones: nat)
    requires Inv(s) && j in s.jobs && Balanced(s, j, works, dones)
    ensures Balanced(Run(s, turns), j, works + WorkSkips(s, turns, j), dones + DoneSkips(s, turns, j))
    decreases |turns|
  {
    hide Inv, Step, Balanced, SkipsWork, SkipsDone;
    if turns != [] {
      var t, a := turns[0].activity, turns[0].action;
      StepBalance(s, t, a, j, works, dones);
      StepKeeps(s, t, a);
      var r, w, d := Step(s, t, a), works + One(SkipsWork(s, t, a, j)), dones + One(SkipsDone(s, t, a, j));
      assert j in r.jobs by { BalancedJob(r, j, w, d); }
      RunBalance(r, turns[1..], j, w, d);
    }
  }

  lemma {:induction false} BalancedJob(s: Sys, j: nat, works: nat, dones: nat)
    requires Balanced(s, j, works, dones)
    ensures j in s.jobs
  {
  }

  /** Over every run, and for every job: whenever it is stopped, each start that succeeded
      was followed by a run of the work function, or a worker found it cancelled; and by a
      run of the done function if it has one, or it was found cancelled or could not be
      passed on. Neither function runs otherwise. */
  lemma {:induction false} EveryStartAccountedFor(s: Sys, turns: seq<Turn>, j: nat)
    requires AtRest(s) && j in s.jobs
    ensures var r := Run(s, turns);
      && j in r.jobs
      && (r.jobs[j].state == Stopped ==>
            && (r.jobs[j].kind == Work ==>
                  Count(r.log, Begun(j)) == Count(r.log, Worked(j)) + WorkSkips(s, turns, j))
            && (r.jobs[j].kind == Async ==> Count(r.log, Worked(j)) == 0)
            && (r.jobs[j].done ==>
                  Count(r.log, Begun(j)) == Count(r.log, Finished(j)) + DoneSkips(s, turns, j))
            && (!r.jobs[j].done ==> Count(r.log, Finished(j)) == 0))
  {
    hide Run, StackOk, Inv, LocksOk, WellOrdered;
    RestHolds(s);
    assert Balanced(s, j, 0, 0);
    RunBalance(s, turns, j, 0, 0);
    RunKeeps(s, turns);
    var r := Run(s, turns);
    if r.jobs[j].state == Stopped { StoppedOwesNothing(r, j); }
  }

  lemma {:induction false} StoppedOwesNothing(s: Sys, j: nat)
    requires Inv(s) && j in s.jobs && s.jobs[j].state == Stopped
    ensures !OwesWork(s, j) && !OwesDone(s, j)
  {
    hide Last, StackOk, Top, PcOk;
    assert JobOk(s, j);
  }

  // ------------------------------------------------------- without hindrance

  /** The start of a job has yet to clear an old cancellation. */
  predicate Claiming(pc: Pc) { pc.WorkClaimed? || pc.AsyncClaimed? || pc.AsyncLocked? }

  /** A job under way is not cancelled. */
  ghost predicate Clear(s: Sys, j: nat) {
    && j in s.jobs && j in s.place
    && (s.place[j] != Nowhere && !Claiming(HolderOf(s, j)) ==> !s.jobs[j].cancelled)
  }

  /** Nobody cancels the job in this step, and no worker fails to pass it on. */
  predicate Unhindered(s: Sys, t: nat, a: Action, j: nat) {
    a != Cancel(j) && !(Active(s, t) && a == Go(false) && s.pcs[t] == ForwardLocked(j))
  }

  lemma {:induction false} ClearEnter(s: Sys, t: nat, a: Action)
    requires PcOk(s, t) && Active(s, t) && s.pcs[t].Idle? && IsCall(a) && JobOk(s, a.job) && Clear(s, a.job)
    ensures Clear(Enter(s, t, a), a.job)
  {
    hide Last, Top;
  }

  lemma {:induction false} ClearWorkStart(s: Sys, t: nat, ok: bool)
    requires Inside(s, t, WorkStarter) && Clear(s, s.pcs[t].job)
    ensures Clear(GoWork(s, t, s.pcs[t], ok), s.pcs[t].job)
  {
    hide Last, Top;
  }

  lemma {:induction false} ClearAsyncStart(s: Sys, t: nat, ok: bool)
    requires Inside(s, t, AsyncStarter) && Clear(s, s.pcs[t].job)
    ensures Clear(GoAsync(s, t, s.pcs[t], ok), s.pcs[t].job)
  {
    hide Last, Top;
  }

  lemma {:induction false} ClearServe(s: Sys, t: nat, ok: bool)
    requires Inside(s, t, Worker) || Inside(s, t, Forwarder) || Inside(s, t, MainLoop)
    requires Clear(s, s.pcs[t].job)
    ensures Clear(Proceed(s, t, ok), s.pcs[t].job)
  {
    hide Last, Top;
  }

  lemma {:induction false} ClearProceed(s: Sys, t: nat, ok: bool)
    requires PcOk(s, t) && Active(s, t) && !s.pcs[t].Idle? && JobOk(s, s.pcs[t].job) && Clear(s, s.pcs[t].job)
    ensures Clear(Proceed(s, t, ok), s.pcs[t].job)
  {
    hide Top, JobOk, Clear, GoWork, GoAsync;
    if RoleOf(s.pcs[t]) == WorkStarter {
      ClearWorkStart(s, t, ok);
    } else if RoleOf(s.pcs[t]) == AsyncStarter {
      ClearAsyncStart(s, t, ok);
    } else {
      ClearServe(s, t, ok);
    }
  }

  lemma {:induction false} ClearSubject(s: Sys, t: nat, a: Action)
    requires !a.Cancel? && !IsSwitch(a) && Step(s, t, a) != s
    requires PcOk(s, t) && Subject(s, t, a) in s.jobs && JobOk(s, Subject(s, t, a)) && Clear(s, Subject(s, t, a))
    ensures Clear(Step(s, t, a), Subject(s, t, a))
  {
    hide JobOk, PcOk, Top, Enter, Proceed, Clear;
    if a.Go? {
      assert !s.pcs[t].Idle? by { IdleProceeds(s, t, a.ok); }
      ClearProceed(s, t, a.ok);
    } else {
      ClearEnter(s, t, a);
    }
  }

  lemma {:induction false} ClearOther(s: Sys, r: Sys, t: nat, j: nat, k: nat)
    requires Local(s, r, t, j) && JobOk(s, k) && k != j && Clear(s, k)
    ensures Clear(r, k)
  {
    hide Local, JobOk, HolderOf;
    OtherUntouched(s, r, t, j, k);
  }

  lemma {:induction false} ClearStep(s: Sys, t: nat, a: Action, k: nat)
    requires Inv(s) && Clear(s, k) && Unhindered(s, t, a, k)
    ensures Clear(Step(s, t, a), k)
  {
    hide Step, Local, Moves, Top, JobOk, PcOk, StackOk, HolderOf;
    var r := Step(s, t, a);
    if a.Cancel? {
      CancelOnly(s, t, a);
      SameHolder(s, r, k);
    } else if IsSwitch(a) {
      SwitchOnly(s, t, a);
      SameHolder(s, r, k);
    } else if r != s {
      StepFine(s, t, a);
      if k == Subject(s, t, a) {
        assert t in s.pcs by { Moved(s, t, a); }
        ClearSubject(s, t, a);
      } else {
        ClearOther(s, r, t, Subject(s, t, a), k);
      }
    }
  }

  lemma {:induction false} SameHolder(s: Sys, r: Sys, k: nat)
    requires r.place == s.place && r.pcs == s.pcs
    ensures HolderOf(r, k) == HolderOf(s, k)
  {
  }

  lemma {:induction false} Moved(s: Sys, t: nat, a: Action)
    requires !a.Cancel? && Step(s, t, a) != s
    ensures t in s.pcs
  {
    hide Top;
  }

  /** A job under way that is not cancelled leaves nothing out. */
  lemma {:induction false} ClearSkips(s: Sys, t: nat, a: Action, j: nat)
    requires Inv(s) && Clear(s, j) && Unhindered(s, t, a, j)
    ensures !SkipsWork(s, t, a, j) && !SkipsDone(s, t, a, j)
  {
    hide JobOk, StackOk, Top;
    if t in s.pcs { assert PcOk(s, t); }
  }

  ghost predicate RunsUnhindered(s: Sys, turns: seq<Turn>, j: nat)
    decreases |turns|
  {
    turns == [] ||
    var t, a := turns[0].activity, turns[0].action;
    Unhindered(s, t, a, j) && RunsUnhindered(Step(s, t, a), turns[1..], j)
  }

  lemma {:induction false} NothingLeftOut(s: Sys, turns: seq<Turn>, j: nat)
    requires Inv(s) && Clear(s, j) && RunsUnhindered(s, turns, j)
    ensures WorkSkips(s, turns, j) == 0 && DoneSkips(s, turns, j) == 0
    decreases |turns|
  {
    hide Inv, Step, Clear, SkipsWork, SkipsDone, Unhindered;
    if turns != [] {
      var t, a := turns[0].activity, turns[0].action;
      ClearSkips(s, t, a, j);
      ClearStep(s, t, a, j);
      StepKeeps(s, t, a);
      NothingLeftOut(Step(s, t, a), turns[1..], j);
    }
  }

  /** In every run in which nobody cancels a job and no worker fails to pass it on:
      whenever it is stopped, its functions have run exactly as often as it was started. */
  lemma {:induction false} EveryStartIsServed(s: Sys, turns: seq<Turn>, j: nat)
    requires AtRest(s) && j in s.jobs && RunsUnhindered(s, turns, j)
    ensures var r := Run(s, turns);
      && j in r.jobs
      && (r.jobs[j].state == Stopped ==>
            && (r.jobs[j].kind == Work ==> Count(r.log, Worked(j)) == Count(r.log, Begun(j)))
            && (r.jobs[j].done ==> Count(r.log, Finished(j)) == Count(r.log, Begun(j))))
  {
    hide Run, StackOk, Inv, LocksOk, WellOrdered;
    RestHolds(s);
    EveryStartAccountedFor(s, turns, j);
    NothingLeftOut(s, turns, j);
  }
}
