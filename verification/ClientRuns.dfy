/** Runs of the client: scheduling passes, and the steps that change tasks
    between them (client/app_control.cpp:1014-1064, client/cs_apps.cpp:48-90). */
module ClientRuns {
  import opened GpuAssignment
  import opened ClientTypes
  import opened Lists
  import opened Wrappers
  import opened Client
  import opened Coprocs
  import opened TaskControl
  import opened Scheduler
  import opened Selection
  import opened Candidates
  import opened JobList
  import opened Priorities
  import opened Enforcement
  import opened Displacement

  // ---- suspending and resuming everything -------------------------------

  datatype SuspendReason = CpuThrottle | Benchmarks | CpuUsage | OtherReason

  predicate SparedFrom(r: Result, reason: SuspendReason, dontThrottle: bool) {
    match reason
    case CpuThrottle => r.nonCpuIntensive || dontThrottle || r.avgNcpus < 1.0
    case CpuUsage => r.nonCpuIntensive
    case _ => false
  }

  function SuspendedState(s: TaskState, gpu: bool, shm: bool, spared: bool, user: bool, checkpointed: bool,
                          leave: bool): TaskState
  {
    if !s.Executing? || spared then s
    else if RemovesFromMemory(gpu, if user then RemoveMaybeUser else RemoveNever, checkpointed, leave) then QuitPending
    else if shm then Suspended else s
  }

  ghost function SuspendedView(t: ActiveTask, reason: SuspendReason, dontThrottle: set<Result>, leave: bool): TaskView
    reads t
  {
    TaskView(
      SuspendedState(t.taskState, t.result.UsesCoprocs(), t.hasShm,
        SparedFrom(t.result, reason, t.result in dontThrottle),
                     reason.OtherReason?, t.checkpointedElapsed, leave),
      t.schedulerState, t.hasShm)
  }

  method SuspendTurn(atp: ActiveTask, reason: SuspendReason, dontThrottle: set<Result>, leave: bool)
    modifies atp`taskState
    ensures atp.View() == old(SuspendedView(atp, reason, dontThrottle, leave))
  {
    if atp.taskState != Executing { return; }
    match reason {
      case CpuThrottle =>
        if atp.result.nonCpuIntensive || atp.result in dontThrottle { return; }
        if atp.result.avgNcpus < 1.0 { return; }
        Preempt(atp, RemoveNever, leave);
      case Benchmarks =>
        Preempt(atp, RemoveNever, leave);
      case CpuUsage =>
        if atp.result.nonCpuIntensive { return; }
        Preempt(atp, RemoveNever, leave);
      case OtherReason =>
        Preempt(atp, RemoveMaybeUser, leave);
    }
  }

  /** Safety does not depend on the states of tasks, as long as executing GPU
      tasks are scheduled. */
  lemma TasksStaySafe(c: ClientState)
    requires c.Shape() && GrantOk(c)
    requires forall k :: 0 <= k < |c.tasks| && c.tasks[k].result.UsesCoprocs() ==> c.TaskSafe(c.tasks[k])
    ensures c.Safe()
  {
  }

  /** An executing task quits if the reason is not the CPU, and it is for a GPU or has
      checkpointed and may not stay in memory; it goes on if it is spared because of the
      reason, or has no shared memory to be told by. */
  lemma SuspendedIff(t: ActiveTask, reason: SuspendReason, dontThrottle: set<Result>, leave: bool)
    requires t.taskState == Executing
    ensures var s := SuspendedView(t, reason, dontThrottle, leave).state;
            && s in {Executing, Suspended, QuitPending}
            && (s == QuitPending <==>
                reason == OtherReason && (t.result.rscType != 0 || (t.checkpointedElapsed && !leave)))
            && (s == Executing <==>
                || (reason == CpuThrottle &&
                    (t.result.nonCpuIntensive || t.result in dontThrottle || t.result.avgNcpus < 1.0))
                || (reason == CpuUsage && t.result.nonCpuIntensive)
                || (s != QuitPending && !t.hasShm))
  {
  }

  lemma OthersAreSpared(t: ActiveTask, reason: SuspendReason, dontThrottle: set<Result>, leave: bool)
    ensures var v := SuspendedView(t, reason, dontThrottle, leave);
            && v.sched == t.schedulerState && v.shm == t.hasShm && (t.taskState != Executing ==> v.state == t.taskState)
  {
  }

  /** `suspend_all`. */
  method SuspendAll(c: ClientState, reason: SuspendReason, dontThrottle: set<Result>, leave: bool)
    requires c.Safe()
    modifies c.tasks`taskState
    ensures c.Safe()
    ensures forall t :: t in c.tasks ==> t.View() == old(SuspendedView(t, reason, dontThrottle, leave))
  {
    hide Distinct, ClientState.CoprocsOk;
    for i := 0 to |c.tasks|
      invariant forall k ::
                  0 <= k < i ==> c.tasks[k].View() == old(SuspendedView(c.tasks[k], reason, dontThrottle, leave))
      invariant forall k :: i <= k < |c.tasks| ==> c.tasks[k].taskState == old(c.tasks[k].taskState)
    {
      SuspendTurn(c.tasks[i], reason, dontThrottle, leave);
    }
    TasksStaySafe(c);
  }

  function ResumedView(v: TaskView, how: StartOutcome): TaskView {
    if !v.sched.SchedScheduled? then v
    else if v.state.Uninitialized? then AfterStart(v, how)
    else if v.state.Suspended? && v.shm then v.(state := Executing)
    else v
  }

  /** A task executes again exactly if it is scheduled and new or suspended, and can be
      started or told. */
  lemma ResumedIff(v: TaskView, how: StartOutcome)
    ensures ResumedView(v, how).sched == v.sched
    ensures ResumedView(v, how).state == Executing <==>
              || v.state == Executing
              || (v.sched == SchedScheduled && v.state == Uninitialized && how == Started)
              || (v.sched == SchedScheduled && v.state == Suspended && v.shm)
  {
  }

  method UnsuspendTurn(atp: ActiveTask, how: StartOutcome)
    modifies atp`taskState, atp`hasShm
    ensures atp.View() == ResumedView(old(atp.View()), how)
  {
    if atp.schedulerState != SchedScheduled { return; }
    if atp.taskState == Uninitialized {
      var ok := Start(atp, how);
    } else if atp.taskState == Suspended {
      Unsuspend(atp);
    }
  }

  /** `unsuspend_all`: the scheduled tasks run again. */
  method UnsuspendAll(c: ClientState, starts: map<Result, StartOutcome>)
    requires c.Safe()
    modifies c.tasks`taskState, c.tasks`hasShm
    ensures c.Safe()
    ensures forall t :: t in c.tasks ==> t.View() == ResumedView(old(t.View()), HowItStarts(starts, t.result))
  {
    for i := 0 to |c.tasks|
      invariant forall k :: 0 <= k < i ==>
                  c.tasks[k].View() == ResumedView(old(c.tasks[k].View()), HowItStarts(starts, c.tasks[k].result))
      invariant forall k :: i <= k < |c.tasks| ==> c.tasks[k].View() == old(c.tasks[k].View())
    {
      UnsuspendTurn(c.tasks[i], HowItStarts(starts, c.tasks[i].result));
    }
    forall k | 0 <= k < |c.tasks| && c.tasks[k].result.UsesCoprocs() ensures c.TaskSafe(c.tasks[k]) {
      assert c.tasks[k].View().sched == old(c.tasks[k].View().sched);
    }
    TasksStaySafe(c);
  }

  // ---- single tasks -----------------------------------------------------

  /** A task's process exits. */
  method ProcessExits(c: ClientState, atp: ActiveTask, how: ExitKind)
    requires c.Safe() && atp in c.tasks
    modifies atp`taskState, atp`hasShm
    ensures c.Safe() && atp.taskState != Executing
    ensures atp.View() == old(atp.View()).(state := AfterExit(old(atp.taskState), how), shm := false)
  {
    HandleExitedApp(atp, how);
    TasksStaySafe(c);
  }

  method TaskAborts(c: ClientState, atp: ActiveTask)
    requires c.Safe() && atp in c.tasks
    modifies atp`taskState
    ensures c.Safe() && atp.taskState in {AbortPending, Aborted}
  {
    AbortTask(atp);
    TasksStaySafe(c);
  }

  // ---- finished tasks ---------------------------------------------------

  predicate Finished(s: TaskState) {
    s in {Exited, WasSignaled, ExitUnknown, CouldntStart, Aborted}
  }

  ghost function GoingOn(tasks: seq<ActiveTask>): set<ActiveTask>
    reads tasks`taskState
  {
    set t | t in tasks && !Finished(t.taskState)
  }

  /** The tasks that go on, in their order. */
  ghost function Unfinished(tasks: seq<ActiveTask>): seq<ActiveTask>
    reads tasks`taskState
  {
    Filter(tasks, GoingOn(tasks))
  }

  method EraseFinished(c: ClientState) returns (action: bool)
    modifies c`tasks
    ensures c.tasks == old(Unfinished(c.tasks)) && (action <==> |c.tasks| < old(|c.tasks|))
            && (!action ==> c.tasks == old(c.tasks))
  {
    hide Filter, OneTaskPerResult, Distinct;
    ghost var was, keep, done := c.tasks, GoingOn(c.tasks), [];
    var i: nat := 0;
    action := false;
    EraseStarts(was, keep);
    while i < |c.tasks|
      invariant i <= |c.tasks| && Erasing(was, keep, done, c.tasks, c.tasks[..i])
      invariant if action then |c.tasks| < |was| else c.tasks == was
      decreases |c.tasks| - i
    {
      ghost var list := c.tasks;
      EraseNext(was, keep, done, list, list[..i]);
      done := done + [list[i]];
      if Finished(c.tasks[i].taskState) {
        c.tasks := c.tasks[..i] + c.tasks[i + 1..];
        action := true;
        assert c.tasks[..i] == list[..i];
      } else {
        i := i + 1;
        assert list[..i] == list[..i - 1] + [list[i - 1]];
      }
    }
    EraseEnds(was, keep, done, c.tasks, c.tasks[..i]);
  }

  /** `handle_finished_apps`: erase the tasks that are over. */
  method HandleFinishedApps(c: ClientState) returns (action: bool)
    requires c.Safe()
    modifies c`tasks
    ensures c.Safe() && c.tasks == old(Unfinished(c.tasks)) && forall t :: t in c.tasks ==> t in old(c.tasks)
    ensures action <==> exists t :: t in old(c.tasks) && Finished(old(t.taskState))
    ensures forall t :: t in old(c.tasks) ==>
              (t in c.tasks <==> t.taskState !in {Exited, WasSignaled, ExitUnknown, CouldntStart, Aborted})
  {
    ghost var was, keep := c.tasks, GoingOn(c.tasks);
    FilterMembers(was, keep);
    FilterTasks(was, keep);
    FilterShrinks(was, keep);
    action := EraseFinished(c);
    TasksStaySafe(c);
  }

  // ---- jobs that come and go --------------------------------------------

  /** A job that fits the host and its project, and is not known yet. */
  predicate Acceptable(c: ClientState, rp: Result)
    reads c`results, c`projects, rp`coprocIndices
  {
    && c.ResultOk(rp) && rp.rscType < |c.coprocs| && (forall r :: r in c.results ==> r.id != rp.id)
    && rp.project in c.projects && (rp.project.nonCpuIntensive ==> rp.nonCpuIntensive)
  }

  /** A job arrives. */
  method AddResult(c: ClientState, rp: Result)
    requires c.Safe() && Consistent(c) && Acceptable(c, rp)
    modifies c`results
    ensures c.Safe() && Consistent(c) && c.results == old(c.results) + [rp]
  {
    c.results := c.results + [rp];
    TasksStaySafe(c);
  }

  /** A job goes, unless it has a task. */
  method DropResult(c: ClientState, i: nat)
    requires c.Safe() && Consistent(c) && i < |c.results|
    modifies c`results
    ensures c.Safe() && Consistent(c)
    ensures c.results == if HasTask(c.tasks, old(c.results[i])) then old(c.results)
            else old(c.results)[..i] + old(c.results)[i + 1..]
  {
    var atp := c.LookupActiveTaskByResult(c.results[i]);
    if atp == null {
      ghost var was, gone := c.results, c.results[i];
      c.results := c.results[..i] + c.results[i + 1..];
      forall k | 0 <= k < |was| && was[k] != gone ensures was[k] in c.results {
        assert was[k] == if k < i then c.results[k] else c.results[k - 1];
      }
      TasksStaySafe(c);
    }
  }

  // ---- the shares in use ------------------------------------------------

  /** The GPU jobs of the first `n` tasks that are scheduled. */
  ghost function ScheduledJobs(tasks: seq<ActiveTask>, n: nat): seq<Job>
    requires n <= |tasks|
    reads tasks, set t | t in tasks :: t.result
  {
    if n == 0 then []
    else
      var t := tasks[n - 1];
      ScheduledJobs(tasks, n - 1) +
      if t.result.UsesCoprocs() && t.schedulerState.SchedScheduled? then [t.result.AsJob(true)] else []
  }

  lemma OneMore(jobs: seq<Job>, j: Job, all: seq<Job>)
    requires multiset(jobs) <= multiset(all) && j !in jobs && j in all
    ensures multiset(jobs + [j]) <= multiset(all)
  {
    assert j !in multiset(jobs) && j in multiset(all);
    assert multiset(jobs + [j]) == multiset(jobs) + multiset{j};
  }

  lemma {:induction false} ScheduledFromTasks(tasks: seq<ActiveTask>, n: nat, id: nat)
    requires n <= |tasks| && forall k :: 0 <= k < n ==> tasks[k].result.id != id
    ensures forall i :: 0 <= i < |ScheduledJobs(tasks, n)| ==> ScheduledJobs(tasks, n)[i].id != id
  {
    if n > 0 {
      ScheduledFromTasks(tasks, n - 1, id);
    }
  }

  lemma NextIsGranted(c: ClientState, n: nat)
    requires c.Safe() && n < |c.tasks| && c.tasks[n].result.UsesCoprocs() && c.tasks[n].schedulerState.SchedScheduled?
    ensures c.tasks[n].result.AsJob(true) in c.granted
    ensures c.tasks[n].result.AsJob(true) !in ScheduledJobs(c.tasks, n)
  {
    var t := c.tasks[n];
    assert t in c.tasks && c.TaskSafe(t);
    forall k | 0 <= k < n ensures c.tasks[k].result.id != t.result.id {
      assert c.tasks[k] in c.tasks && c.tasks[k].result != t.result;
    }
    ScheduledFromTasks(c.tasks, n, t.result.id);
  }

  lemma ScheduledNext(tasks: seq<ActiveTask>, n: nat)
    requires n < |tasks|
    ensures ScheduledJobs(tasks, n + 1) ==
            if tasks[n].result.UsesCoprocs() && tasks[n].schedulerState.SchedScheduled?
            then ScheduledJobs(tasks, n) + [tasks[n].result.AsJob(true)] else ScheduledJobs(tasks, n)
  {
  }

  lemma {:induction false} ScheduledAreGranted(c: ClientState, n: nat)
    requires c.Safe() && n <= |c.tasks|
    ensures multiset(ScheduledJobs(c.tasks, n)) <= multiset(c.granted)
  {
    hide ClientState.Safe, ScheduledJobs;
    if n > 0 {
      ScheduledAreGranted(c, n - 1);
      ScheduledNext(c.tasks, n - 1);
      var t := c.tasks[n - 1];
      if t.result.UsesCoprocs() && t.schedulerState.SchedScheduled? {
        NextIsGranted(c, n - 1);
        OneMore(ScheduledJobs(c.tasks, n - 1), t.result.AsJob(true), c.granted);
      }
    } else {
      NoneScheduled(c.tasks);
    }
  }

  lemma NoneScheduled(tasks: seq<ActiveTask>)
    ensures ScheduledJobs(tasks, 0) == []
  {
  }

  /** In a safe state no GPU instance is used beyond its capacity by the tasks
      that are scheduled, let alone by those that execute. */
  lemma InstancesNotOverused(c: ClientState, t: nat, i: nat)
    requires c.Safe() && t < |c.coprocs| && i < c.coprocs[t].count
    ensures Load(ScheduledJobs(c.tasks, |c.tasks|), t, i) <= 1.0
    ensures forall a ::
              a in c.tasks && a.result.UsesCoprocs() && a.taskState == Executing ==> a.schedulerState == SchedScheduled
  {
    ScheduledAreGranted(c, |c.tasks|);
    LoadOfSublist(ScheduledJobs(c.tasks, |c.tasks|), c.granted, c.Sizes(), t, i);
  }

  lemma IndexIsHeld(c: ClientState, t: ActiveTask, k: nat)
    requires c.Safe() && t in c.tasks && t.taskState == Executing && t.result.rscType != 0
    requires k as real < t.result.gpuUsage && k < |t.result.coprocIndices|
    ensures t.result.rscType < |c.coprocs| && t.result.AsJob(true) in c.granted
    ensures t.result.coprocIndices[k] in t.result.Held()
            && t.result.coprocIndices[k] < c.coprocs[t.result.rscType].count
  {
    var r := t.result;
    assert c.TaskSafe(t) && r in c.results && c.ResultOk(r);
    var m :| 0 <= m < |c.granted| && c.granted[m] == r.AsJob(true);
    assert JobOk(c.granted[m], c.Sizes());
    TurnsOf(r.gpuUsage, k);
    assert r.Held()[k] == r.coprocIndices[k];
  }

  /** In a safe state two executing tasks are on the same instance only if both use a
      fraction of it and these fit: an instance used whole is used alone. */
  lemma InstancesAreShared(c: ClientState, a: ActiveTask, b: ActiveTask, k: nat, l: nat)
    requires c.Safe() && a in c.tasks && b in c.tasks && a != b && a.taskState == b.taskState == Executing
    requires a.result.rscType == b.result.rscType != 0
    requires k as real < a.result.gpuUsage && k < |a.result.coprocIndices|
    requires l as real < b.result.gpuUsage && l < |b.result.coprocIndices|
    requires a.result.coprocIndices[k] == b.result.coprocIndices[l]
    ensures a.result.gpuUsage < 1.0 && b.result.gpuUsage < 1.0 && a.result.gpuUsage + b.result.gpuUsage <= 1.0
  {
    var r, s, i := a.result, b.result, a.result.coprocIndices[k];
    IndexIsHeld(c, a, k);
    IndexIsHeld(c, b, l);
    assert r in c.results && s in c.results && r != s && r.id != s.id;
    var m :| 0 <= m < |c.granted| && c.granted[m] == r.AsJob(true);
    var n :| 0 <= n < |c.granted| && c.granted[n] == s.AsJob(true);
    forall m | 0 <= m < |c.granted| && c.granted[m].rt != 0 ensures c.granted[m].usage > 0.0 {
      assert JobOk(c.granted[m], c.Sizes());
    }
    LoadHasBoth(c.granted, if m < n then m else n, if m < n then n else m, r.rscType, i);
    assert Load(c.granted, r.rscType, i) <= 1.0;
  }

  // ---- running jobs that lose their instances ---------------------------

  /** The GPU jobs of a list that are running. */
  ghost function RunningJobs(jobs: seq<Job>): seq<Job> {
    if jobs == [] then []
    else
      var j := jobs[|jobs| - 1];
      RunningJobs(jobs[..|jobs| - 1]) + if j.running && j.rt != 0 then [j] else []
  }

  lemma {:induction false} RunningLoadIs(jobs: seq<Job>, t: nat, i: nat)
    ensures RunningLoad(jobs, t, i) == Load(RunningJobs(jobs), t, i)
  {
    if jobs != [] {
      var j, front := jobs[|jobs| - 1], jobs[..|jobs| - 1];
      RunningLoadIs(front, t, i);
      LoadStep(RunningJobs(front), j, t, i);
      assert RunningJobs(front) + [] == RunningJobs(front);
    }
  }

  lemma {:induction false} RunningAreAmong(jobs: seq<Job>, all: seq<Job>)
    requires forall k :: 0 <= k < |jobs| && jobs[k].running && jobs[k].rt != 0 ==> jobs[k] in all
    requires Distinct(jobs)
    ensures multiset(RunningJobs(jobs)) <= multiset(all) && forall j :: j in RunningJobs(jobs) ==> j in jobs
  {
    if jobs != [] {
      var j, front := jobs[|jobs| - 1], jobs[..|jobs| - 1];
      RunningAreAmong(front, all);
      if j.running && j.rt != 0 {
        assert j !in front;
        OneMore(RunningJobs(front), j, all);
      }
    }
  }

  /** In a safe state the running jobs of a list fit together. */
  lemma RunningFitWhenSafe(c: ClientState, list: seq<Result>)
    requires c.Safe() && Distinct(list) && forall r :: r in list ==> r in c.results
    ensures JobsOk(ClientState.AsJobs(list, c.Running()), c.Sizes())
    ensures RunningFit(c.Sizes(), ClientState.AsJobs(list, c.Running()))
  {
    var js := ClientState.AsJobs(list, c.Running());
    RunningJobsHoldTheirInstances(c, list);
    forall k | 0 <= k < |js| && js[k].running && js[k].rt != 0 ensures js[k] in c.granted {
      var t :| t in c.tasks && t.result == list[k] && t.taskState == Executing;
      assert c.TaskSafe(t);
    }
    forall k, l | 0 <= k < l < |js| ensures js[k] != js[l] {
      assert list[k] in c.results && list[l] in c.results && list[k] != list[l];
    }
    RunningAreAmong(js, c.granted);
    forall t: nat, i: nat | t < |c.Sizes()| && i < c.Sizes()[t] ensures RunningLoad(js, t, i) <= 1.0 {
      RunningLoadIs(js, t, i);
      LoadOfSublist(RunningJobs(js), c.granted, c.Sizes(), t, i);
    }
  }

  /** In a safe state a pass turns a running GPU job away exactly if some job of the
      list that is not running takes an instance on the guard. */
  lemma DisplacedWhenSafeIff(c: ClientState, list: seq<Result>)
    requires c.Safe() && Distinct(list) && forall r :: r in list ==> r in c.results
    ensures var js := ClientState.AsJobs(list, c.Running());
            && JobsOk(js, c.Sizes())
            && (RunningPruned(Assign(c.Sizes(), js)) <==> exists n: nat :: ClaimsAt(c.Sizes(), js, n))
  {
    RunningFitWhenSafe(c, list);
    RunningPrunedIff(c.Sizes(), ClientState.AsJobs(list, c.Running()));
  }

  // ---- runs -------------------------------------------------------------

  /** The run list of a pass; making it does not touch what safety is about. */
  method MakeSafeRunList(c: ClientState, env: Env, f: Forecast) returns (list: seq<Result>)
    requires c.Safe() && Consistent(c) && RunnableOk(c, env) && 0 < |c.coprocs|
    modifies c.results`alreadySelected, c.results`edfScheduled, c.results`notStarted, c.tasks`tooLarge
    modifies c.projects`resourceShareFrac, c.projects`recTemp, c.projects`schedPriority
    modifies c.projects`nextRunnableResult, c.projects`deadlinesMissedCopy
    ensures c.Safe() && Distinct(list) && forall r :: r in list ==> r in c.results
  {
    hide *;
    var pr, s;
    ghost var early, log;
    list, pr, s, early, log := MakeRunList(c, env, f);
    ListedOnce(c, pr, env, f, s, list, early, log);
  }

  lemma ConsistentWhenSafe(c: ClientState)
    requires c.Safe()
    ensures Consistent(c) <==> ResultsOk(c)
  {
  }

  lemma SuspendedAreSkipped(c: ClientState, env: Env)
    ensures RunnableOk(c, env.(runnable := set r | r in env.runnable && !r.project.suspended))
  {
  }

  method SchedulePass(c: ClientState, env: Env, f: Forecast, starts: map<Result, StartOutcome>, slowFrom: nat)
    requires c.Safe() && Consistent(c) && RunnableOk(c, env) && 0 < |c.coprocs|
    modifies c`tasks, c`granted, c.coprocs, c.projects, (set r | r in c.results), (set t | t in c.tasks)
    ensures c.Safe() && NewTasksFresh(c) && (GpuQuitting(c) ==> GpuTasksRunning(c) <= old(GpuTasksRunning(c)))
    ensures IndicesKept(old(c.Running())) && (old(NoGpuSuspended(c)) ==> NoGpuSuspended(c))
  {
    hide ClientState.Safe, Consistent, RunnableOk, GpuQuitting, GpuTasksRunning, AdmissionOk, Grants,
         NoGpuSuspended, NextStatesAre, Ordered, OfferedAs, TasksEndAs, Distinct;
    var list := MakeSafeRunList(c, env, f);
    ghost var pass := EnforceRunList(c, list, env, starts, slowFrom);
  }

  /** `schedule_cpus`, when it is due. */
  method ScheduleCpus(c: ClientState, env: Env, f: Forecast, starts: map<Result, StartOutcome>, slowFrom: nat)
    requires c.Safe() && Consistent(c) && 0 < |c.coprocs|
    modifies c`tasks, c`granted, c.coprocs, c.projects, (set r | r in c.results), (set t | t in c.tasks)
    ensures c.Safe() && Consistent(c) && NewTasksFresh(c)
    ensures GpuQuitting(c) ==> GpuTasksRunning(c) <= old(GpuTasksRunning(c))
    ensures IndicesKept(old(c.Running())) && (old(NoGpuSuspended(c)) ==> NoGpuSuspended(c))
  {
    hide ClientState.Safe, Consistent, ResultsOk, RunnableOk, GpuQuitting, GpuTasksRunning;
    if c.projects == [] || c.results == [] { return; }
    SuspendedAreSkipped(c, env);
    ConsistentWhenSafe(c);
    SchedulePass(c, env.(runnable := set r | r in env.runnable && !r.project.suspended), f, starts, slowFrom);
    ConsistentWhenSafe(c);
  }

  datatype Event =
    | Pass(env: Env, forecast: Forecast, starts: map<Result, StartOutcome>, slowFrom: nat)
    | Suspension(reason: SuspendReason, dontThrottle: set<Result>, leave: bool)
    | Resumption(starts: map<Result, StartOutcome>)
    | Exit(task: ActiveTask, how: ExitKind)
    | Abort(task: ActiveTask)
    | Cleanup
    | ResultArrives(result: Result)
    | ResultGoes(i: nat)

  /** A client that has just started. */
  method NewClient(coprocs: seq<Coproc>, projects: seq<Project>) returns (c: ClientState)
    requires forall t :: 0 <= t < |coprocs| ==> coprocs[t].Valid()
    requires Distinct(coprocs) && Distinct(projects)
    ensures fresh(c) && c.Safe() && Consistent(c) && c.coprocs == coprocs && c.projects == projects
    ensures c.tasks == [] && c.results == []
  {
    c := new ClientState(coprocs, projects);
  }

  // ---- what a step may change -------------------------------------------

  /** Of a moment in a run: whether a GPU task is quitting, which GPU tasks execute
      and which are suspended in memory, which of the latter would not be resumed,
      and the instances recorded for those that have a process to go on with. */
  datatype Snapshot = Snapshot(
    quitting: bool, running: set<ActiveTask>, suspended: set<ActiveTask>, unready: set<ActiveTask>,
    indices: map<ActiveTask, seq<nat>>)

  ghost function GpuTasksSuspended(c: ClientState): set<ActiveTask>
    reads c`tasks, c.tasks`taskState
  {
    set t | t in c.tasks && t.result.UsesCoprocs() && t.taskState == Suspended
  }

  ghost function GpuTasksUnready(c: ClientState): set<ActiveTask>
    reads c`tasks, c.tasks`taskState, c.tasks`schedulerState, c.tasks`hasShm
  {
    set t | t in GpuTasksSuspended(c) && !(t.schedulerState == SchedScheduled && t.hasShm)
  }

  ghost function IndicesOf(c: ClientState): map<ActiveTask, seq<nat>>
    reads c`tasks, c.tasks`taskState, (set t | t in c.tasks :: t.result)`coprocIndices
  {
    map t | t in GpuTasksRunning(c) + GpuTasksSuspended(c) :: t.result.coprocIndices
  }

  ghost function Snap(c: ClientState): Snapshot
    reads c`tasks, c.tasks`taskState, c.tasks`schedulerState, c.tasks`hasShm,
          (set t | t in c.tasks :: t.result)`coprocIndices
  {
    Snapshot(GpuQuitting(c), GpuTasksRunning(c), GpuTasksSuspended(c), GpuTasksUnready(c), IndicesOf(c))
  }

  /** A task with a process before and after has the same instances recorded. */
  ghost predicate Steady(s: Snapshot, s': Snapshot) {
    forall t :: t in s.indices && t in s'.indices ==> s.indices[t] == s'.indices[t]
  }

  ghost predicate SuspendedAfter(s: Snapshot, e: Event, s': Snapshot) {
    match e
    case Pass(_, _, _, _) => s.suspended == {} ==> s'.suspended == s'.unready == {}
    case Suspension(_, _, _) => s'.unready <= s.unready
    case Resumption(_) => s'.suspended <= s.unready && s'.unready <= s.unready
    case _ => s'.suspended <= s.suspended && s'.unready <= s.unready
  }

  /** A pass starts no GPU task while one is quitting; and instances only change
      in a pass that finds a suspended GPU task. */
  ghost predicate StepOk(s: Snapshot, e: Event, s': Snapshot) {
    && (e.Pass? && s'.quitting ==> s'.running <= s.running)
    && ((e.Pass? ==> s.suspended == {}) ==> Steady(s, s'))
    && SuspendedAfter(s, e, s')
  }

  ghost function Arrivals(script: seq<Event>): set<Result> {
    set e | e in script && e.ResultArrives? :: e.result
  }

  lemma NoneSuspended(c: ClientState)
    ensures Snap(c).suspended == {} <==> NoGpuSuspended(c)
  {
    if t :| t in c.tasks && t.result.UsesCoprocs() && t.taskState == Suspended {
      assert t in Snap(c).suspended;
    }
  }

  lemma PassIsOk(c: ClientState, s: Snapshot, e: Event)
    requires e.Pass? && (GpuQuitting(c) ==> GpuTasksRunning(c) <= s.running)
    requires s.suspended == {} ==> NoGpuSuspended(c) && s.indices.Keys == s.running
    requires forall t :: t in s.running ==> t in s.indices && t.result.coprocIndices == s.indices[t]
    ensures StepOk(s, e, Snap(c))
  {
  }

  method PassStep(c: ClientState, e: Event, ghost s: Snapshot)
    requires e.Pass? && s == Snap(c) && c.Safe() && Consistent(c) && 0 < |c.coprocs|
    modifies c`tasks, c`granted, c.coprocs, c.projects, (set r | r in c.results), (set t | t in c.tasks)
    ensures c.Safe() && Consistent(c) && NewTasksFresh(c) && StepOk(s, e, Snap(c))
  {
    hide ClientState.Safe, Consistent, StepOk, NoGpuSuspended, GpuQuitting;
    NoneSuspended(c);
    ScheduleCpus(c, e.env, e.forecast, e.starts, e.slowFrom);
    PassIsOk(c, s, e);
  }

  lemma OtherIsOk(c: ClientState, s: Snapshot, e: Event)
    requires !e.Pass? && SuspendedAfter(s, e, Snap(c))
    requires forall t :: t in s.indices ==> t.result.coprocIndices == s.indices[t]
    ensures StepOk(s, e, Snap(c))
  {
  }

  method SuspensionStep(c: ClientState, e: Event, ghost s: Snapshot)
    requires e.Suspension? && s == Snap(c) && c.Safe() && Consistent(c)
    modifies c.tasks`taskState
    ensures c.Safe() && Consistent(c) && StepOk(s, e, Snap(c))
  {
    forall t | t in c.tasks && t.result.UsesCoprocs() ensures c.TaskSafe(t) {
    }
    SuspendAll(c, e.reason, e.dontThrottle, e.leave);
    forall t | t in GpuTasksUnready(c) ensures t in s.unready {
      assert t.View() == old(SuspendedView(t, e.reason, e.dontThrottle, e.leave));
    }
    OtherIsOk(c, s, e);
  }

  method ResumptionStep(c: ClientState, e: Event, ghost s: Snapshot)
    requires e.Resumption? && s == Snap(c) && c.Safe() && Consistent(c)
    modifies c.tasks`taskState, c.tasks`hasShm
    ensures c.Safe() && Consistent(c) && StepOk(s, e, Snap(c))
  {
    UnsuspendAll(c, e.starts);
    forall t | t in GpuTasksSuspended(c) ensures t in s.unready {
      assert t.View() == ResumedView(old(t.View()), HowItStarts(e.starts, t.result));
    }
    OtherIsOk(c, s, e);
  }

  /** A process that exits, or a task that is aborted. */
  method TaskStep(c: ClientState, e: Event, ghost s: Snapshot)
    requires (e.Exit? || e.Abort?) && s == Snap(c) && c.Safe() && Consistent(c)
    modifies (set t | t in c.tasks)`taskState, (set t | t in c.tasks)`hasShm
    ensures c.Safe() && Consistent(c) && StepOk(s, e, Snap(c))
  {
    hide StepOk, Steady, GpuQuitting;
    if e.task in c.tasks {
      if e.Exit? {
        ProcessExits(c, e.task, e.how);
      } else {
        TaskAborts(c, e.task);
      }
    }
    assert GpuTasksSuspended(c) <= s.suspended && GpuTasksUnready(c) <= s.unready;
    OtherIsOk(c, s, e);
  }

  /** Finished tasks are cleared away. */
  method CleanupStep(c: ClientState, e: Event, ghost s: Snapshot)
    requires e.Cleanup? && s == Snap(c) && c.Safe() && Consistent(c)
    modifies c`tasks
    ensures c.Safe() && Consistent(c) && (forall t :: t in c.tasks ==> t in old(c.tasks)) && StepOk(s, e, Snap(c))
  {
    hide ClientState.Safe, Consistent, StepOk, Steady, GpuQuitting;
    ConsistentWhenSafe(c);
    var action := HandleFinishedApps(c);
    ConsistentWhenSafe(c);
    assert GpuTasksSuspended(c) <= s.suspended && GpuTasksUnready(c) <= s.unready;
    OtherIsOk(c, s, e);
  }

  lemma SameIsOk(s: Snapshot, e: Event)
    requires e.ResultArrives? || e.ResultGoes?
    ensures StepOk(s, e, s)
  {
  }

  /** A job arrives or goes. */
  method ResultStep(c: ClientState, e: Event, ghost s: Snapshot)
    requires (e.ResultArrives? || e.ResultGoes?) && s == Snap(c) && c.Safe() && Consistent(c)
    modifies c`results
    ensures c.Safe() && Consistent(c) && StepOk(s, e, Snap(c))
    ensures forall r :: r in c.results ==> r in old(c.results) || r in Arrivals([e])
  {
    hide ClientState.Safe, Consistent, StepOk, Snap, Acceptable;
    if e.ResultArrives? {
      if Acceptable(c, e.result) {
        AddResult(c, e.result);
        assert e in [e];
      }
    } else if e.i < |c.results| {
      DropResult(c, e.i);
    }
    SameIsOk(s, e);
  }

  /** One step of a run; what concerns a task or job that is gone does nothing. */
  method Step(c: ClientState, e: Event, ghost s: Snapshot)
    requires s == Snap(c) && c.Safe() && Consistent(c) && 0 < |c.coprocs|
    modifies c`tasks, c`results, c`granted, c.coprocs, c.projects, (set r | r in c.results), (set t | t in c.tasks)
    ensures c.Safe() && Consistent(c) && NewTasksFresh(c) && StepOk(s, e, Snap(c))
    ensures forall r :: r in c.results ==> r in old(c.results) || r in Arrivals([e])
  {
    hide ClientState.Safe, Consistent, StepOk, Snap;
    match e {
      case Pass(_, _, _, _) => PassStep(c, e, s);
      case Suspension(_, _, _) => SuspensionStep(c, e, s);
      case Resumption(_) => ResumptionStep(c, e, s);
      case Exit(_, _) => TaskStep(c, e, s);
      case Abort(_) => TaskStep(c, e, s);
      case Cleanup => CleanupStep(c, e, s);
      case ResultArrives(_) => ResultStep(c, e, s);
      case ResultGoes(_) => ResultStep(c, e, s);
    }
  }

  ghost predicate IsTrace(script: seq<Event>, trace: seq<Snapshot>) {
    |trace| == |script| + 1 && forall n :: 0 <= n < |script| ==> StepOk(trace[n], script[n], trace[n + 1])
  }

  lemma TraceNext(script: seq<Event>, trace: seq<Snapshot>, n: nat, s: Snapshot)
    requires n < |script| && IsTrace(script[..n], trace) && StepOk(trace[n], script[n], s)
    ensures IsTrace(script[..n + 1], trace + [s])
  {
    hide StepOk;
    var more := trace + [s];
    forall m | 0 <= m < n + 1 ensures StepOk(more[m], script[..n + 1][m], more[m + 1]) {
      assert m < n ==> StepOk(trace[m], script[..n][m], trace[m + 1]);
    }
  }

  /** Over every run, the state is safe after every step: `InstancesNotOverused`
      holds throughout; and every step is one that `StepOk` allows. */
  method Run(c: ClientState, script: seq<Event>) returns (ghost trace: seq<Snapshot>)
    requires c.Safe() && Consistent(c) && 0 < |c.coprocs|
    modifies c`tasks, c`results, c`granted, c.coprocs, c.projects, (set t | t in c.tasks)
    modifies (set r | r in c.results), Arrivals(script)
    ensures c.Safe() && Consistent(c)
    ensures IsTrace(script, trace) && trace[0] == old(Snap(c)) && trace[|script|] == Snap(c)
  {
    hide ClientState.Safe, Consistent, StepOk, Snap;
    trace := [Snap(c)];
    for i := 0 to |script|
      invariant c.Safe() && Consistent(c) && NewTasksFresh(c)
      invariant forall r :: r in c.results ==> r in old(c.results) || r in Arrivals(script)
      invariant IsTrace(script[..i], trace) && trace[0] == old(Snap(c)) && trace[i] == Snap(c)
    {
      assert script[i] in script;
      Step(c, script[i], trace[i]);
      TraceNext(script, trace, i, Snap(c));
      trace := trace + [Snap(c)];
    }
    assert script[..|script|] == script;
  }

  // ---- the instances of live tasks --------------------------------------

  /** Whether the client has suspended computation and not resumed it. */
  predicate Suspending(script: seq<Event>) {
    script != [] &&
    match script[|script| - 1]
    case Suspension(_, _, _) => true
    case Resumption(_) => false
    case _ => Suspending(script[..|script| - 1])
  }

  /** The client makes no pass while computation is suspended
      (client/client_state.cpp:901-903). */
  ghost predicate Disciplined(script: seq<Event>) {
    forall n :: 0 <= n < |script| && script[n].Pass? ==> !Suspending(script[..n])
  }

  lemma {:induction false} SuspendedOnlyMeanwhile(script: seq<Event>, trace: seq<Snapshot>, n: nat)
    requires IsTrace(script, trace) && Disciplined(script) && n <= |script|
    requires trace[0].suspended == trace[0].unready == {}
    ensures trace[n].unready == {} && (!Suspending(script[..n]) ==> trace[n].suspended == {})
  {
    if n > 0 {
      SuspendedOnlyMeanwhile(script, trace, n - 1);
      assert script[..n][..n - 1] == script[..n - 1] && StepOk(trace[n - 1], script[n - 1], trace[n]);
    }
  }

  /** Over every run in which no pass is made while computation is suspended, a GPU
      task that has a process to go on with keeps its instances. */
  lemma LiveTasksKeepInstances(script: seq<Event>, trace: seq<Snapshot>, n: nat)
    requires IsTrace(script, trace) && Disciplined(script) && n < |script|
    requires trace[0].suspended == trace[0].unready == {}
    ensures Steady(trace[n], trace[n + 1])
  {
    SuspendedOnlyMeanwhile(script, trace, n);
    assert StepOk(trace[n], script[n], trace[n + 1]);
  }

  lemma FirstOfTwo(j: Job)
    requires j.usage == 1.0 && !j.running && j.excluded == {}
    ensures Choose(Row([0.0, 0.0], [0.0, 0.0]), j) == Some([0])
  {
    var r := Row([0.0, 0.0], [0.0, 0.0]);
    assert FreeBelow(r, j, true, 1) == [0] && FreeBelow(r, j, true, 2) == [0, 1] && Count(1.0) == 1;
    assert GpuAssignment.Candidates(r, j)[..1] == [0];
    assert Choose(r, j).Some? && Choose(r, j).value == [0];
  }

  /** Otherwise they can change: a task suspended in memory does not count as
      running, and its job is moved here from instance 1 to instance 0. */
  lemma SuspendedJobMoves()
    ensures var j := Job(0, 1, 1.0, {}, false, [1]);
            JobsOk([j], [0, 2]) && Assign([0, 2], [j]).kept == [j.(held := [0])]
  {
    var sizes, j := [0, 2], Job(0, 1, 1.0, {}, false, [1]);
    assert JobOk(j, sizes) && JobsOk([j], sizes);
    var rows := Initial(sizes, [j]);
    assert [j][..0] == [] && RunningLoad([j], 1, 0) == RunningLoad([], 1, 0)
           && RunningLoad([j], 1, 1) == RunningLoad([], 1, 1);
    assert rows[1] == Row([0.0, 0.0], [0.0, 0.0]);
    FirstOfTwo(j);
    hide Choose, Charge;
    assert AssignFrom(rows, sizes, []) == Outcome(rows, [], []);
  }
}
