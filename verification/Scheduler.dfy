/** One scheduling pass, `enforce_run_list` (client/cpu_sched.cpp:1429-1811),
    on the client state. */
module Scheduler {
  import opened Lists
  import opened GpuAssignment
  import opened ClientTypes
  import opened Client
  import opened TaskControl
  import RunList
  import Admission

  /** What the pass finds in the rest of the client: preferences, the memory
      available, and the verdicts of other parts on results and tasks.  `taskWss`
      is the smoothed working set of a result's task (none yet counts as 0),
      `versionWss` the largest one seen for its application version. */
  datatype Env = Env(
    ncpus: nat,
    ram: real,
    runnable: set<Result>,
    sliceDone: set<Result>,
    missed: set<Result>,
    gpuSuspended: bool,
    leaveInMemory: bool,
    taskWss: map<Result, real>,
    versionWss: map<Result, real>)

  // ---- the preempt loop -------------------------------------------------

  /** State of one task after the preempt loop has passed it. */
  function AfterPreemptTurn(
      v: TaskView, next: SchedulerState, gpu: bool, tooLarge: bool, cpElapsed: bool, cpCpu: bool, leave: bool): TaskView
  {
    if next != SchedPreempted then v
    else
      var s := match v.state
        case Executing =>
          if RemovesFromMemory(gpu, if tooLarge then RemoveAlways else RemoveMaybeSched, cpElapsed, leave)
            then QuitPending
          else if v.shm then Suspended else Executing
        case Suspended => if cpCpu && !leave then QuitPending else Suspended
        case _ => v.state;
      TaskView(s, SchedPreempted, v.shm)
  }

  ghost function PreemptedView(t: ActiveTask, leave: bool): TaskView
    reads t
  {
    AfterPreemptTurn(t.View(), t.nextSchedulerState, t.result.UsesCoprocs(), t.tooLarge,
                     t.checkpointedElapsed, t.checkpointedCpu, leave)
  }

  method PreemptTurn(atp: ActiveTask, leaveInMemory: bool) returns (quitPending: bool)
    modifies atp`taskState, atp`schedulerState
    ensures atp.View() == old(PreemptedView(atp, leaveInMemory))
    ensures quitPending <==> atp.result.UsesCoprocs() && atp.taskState == QuitPending
  {
    if atp.nextSchedulerState == SchedPreempted {
      match atp.taskState {
        case Executing =>
          Preempt(atp, if atp.tooLarge then RemoveAlways else RemoveMaybeSched, leaveInMemory);
        case Suspended =>
          if atp.checkpointedCpu && !leaveInMemory {
            Preempt(atp, RemoveAlways, leaveInMemory);
          }
        case _ =>
      }
      atp.schedulerState := SchedPreempted;
    }
    quitPending := atp.result.UsesCoprocs() && atp.taskState == QuitPending;
  }

  /** Preempt what is not to run, and note a GPU task that is still quitting. */
  method PreemptTasks(c: ClientState, leaveInMemory: bool) returns (quitPending: bool)
    requires OneTaskPerResult(c.tasks)
    modifies c.tasks`taskState, c.tasks`schedulerState
    ensures forall t :: t in c.tasks ==> t.View() == old(PreemptedView(t, leaveInMemory))
    ensures quitPending <==> exists t :: t in c.tasks && t.result.UsesCoprocs() && t.taskState == QuitPending
  {
    quitPending := false;
    for i := 0 to |c.tasks|
      invariant forall k :: 0 <= k < i ==> c.tasks[k].View() == old(PreemptedView(c.tasks[k], leaveInMemory))
      invariant forall k :: i <= k < |c.tasks| ==>
                  PreemptedView(c.tasks[k], leaveInMemory) == old(PreemptedView(c.tasks[k], leaveInMemory))
      invariant quitPending <==>
                  exists k :: 0 <= k < i && c.tasks[k].result.UsesCoprocs() && c.tasks[k].taskState == QuitPending
    {
      var q := PreemptTurn(c.tasks[i], leaveInMemory);
      quitPending := quitPending || q;
    }
  }

  // ---- the start loop ---------------------------------------------------

  predicate Startable(s: TaskState) {
    s.Uninitialized? || s.Suspended?
  }

  /** State of one task after its turn in the start loop: one that can be
      started or resumed is, unless a GPU task is still quitting; it counts as
      scheduled unless the start is put off or fails. */
  function AfterStartTurn(v: TaskView, next: SchedulerState, gpu: bool, quitPending: bool, how: StartOutcome): TaskView
  {
    if next != SchedScheduled then v
    else if Startable(v.state) then
      if gpu && quitPending then v
      else if v.state.Uninitialized? && (how.NoShm? || how.StartError?) then AfterStart(v, how)
      else AfterResumeOrStart(v, how).(sched := SchedScheduled)
    else v.(sched := SchedScheduled)
  }

  ghost function StartedView(t: ActiveTask, quitPending: bool, how: StartOutcome): TaskView
    reads t
  {
    AfterStartTurn(t.View(), t.nextSchedulerState, t.result.UsesCoprocs(), quitPending, how)
  }

  method StartTurn(atp: ActiveTask, quitPending: bool, how: StartOutcome) returns (reachedEnd: bool)
    modifies atp`taskState, atp`schedulerState, atp`hasShm
    ensures atp.View() == old(StartedView(atp, quitPending, how))
  {
    if atp.nextSchedulerState != SchedScheduled { return false; }
    if Startable(atp.taskState) {
      if atp.result.UsesCoprocs() && quitPending { return false; }
      var ok := ResumeOrStart(atp, how);
      if !ok { return false; }
    }
    atp.schedulerState := SchedScheduled;
    return true;
  }

  /** Start or resume what is to run.  The loop gives up when starting takes
      too long: from position `slowFrom` on it stops after the next task it
      has dealt with. */
  method StartTasks(c: ClientState, quitPending: bool, starts: map<Result, StartOutcome>, slowFrom: nat)
      returns (ghost stop: nat)
    requires OneTaskPerResult(c.tasks)
    modifies c.tasks`taskState, c.tasks`schedulerState, c.tasks`hasShm
    ensures stop <= |c.tasks| && (stop < |c.tasks| ==> slowFrom < stop)
    ensures forall k :: 0 <= k < stop ==>
              c.tasks[k].View() == old(StartedView(c.tasks[k], quitPending, HowItStarts(starts, c.tasks[k].result)))
    ensures forall k :: stop <= k < |c.tasks| ==> c.tasks[k].View() == old(c.tasks[k].View())
  {
    for i := 0 to |c.tasks|
      invariant forall k :: 0 <= k < i ==>
                  c.tasks[k].View() == old(StartedView(c.tasks[k], quitPending, HowItStarts(starts, c.tasks[k].result)))
      invariant forall k :: i <= k < |c.tasks| ==> c.tasks[k].View() == old(c.tasks[k].View())
    {
      var reachedEnd := StartTurn(c.tasks[i], quitPending, HowItStarts(starts, c.tasks[i].result));
      if reachedEnd && slowFrom <= i {
        return i + 1;
      }
    }
    return |c.tasks|;
  }

  function HowItStarts(starts: map<Result, StartOutcome>, r: Result): StartOutcome {
    if r in starts then starts[r] else Started
  }

  // ---- admission --------------------------------------------------------

  /** The task of a result, created if there is none. */
  method GetTask(c: ClientState, rp: Result) returns (atp: ActiveTask)
    requires OneTaskPerResult(c.tasks)
    modifies c`tasks
    ensures OneTaskPerResult(c.tasks) && atp in c.tasks && atp.result == rp
    ensures old(c.tasks) <= c.tasks
    ensures if exists t :: t in old(c.tasks) && t.result == rp then c.tasks == old(c.tasks)
            else fresh(atp) && c.tasks == old(c.tasks) + [atp]
    ensures fresh(atp) ==> atp.View() == TaskView(Uninitialized, SchedUninitialized, false)
  {
    var found := c.LookupActiveTaskByResult(rp);
    if found != null {
      return found;
    }
    atp := new ActiveTask(rp);
    c.tasks := c.tasks + [atp];
  }

  function Lookup(m: map<Result, real>, r: Result): real {
    if r in m then m[r] else 0.0
  }

  /** What a result asks for; its working set is its task's, or the largest
      seen for its version when it has no task. */
  function CostFor(rp: Result, env: Env, hasTask: bool): Admission.Cost {
    Admission.Cost(rp.UsesCoprocs(), rp.avgNcpus, Lookup(if hasTask then env.taskWss else env.versionWss, rp))
  }

  ghost function CostOf(c: ClientState, rp: Result, env: Env): Admission.Cost
    reads c`tasks
  {
    CostFor(rp, env, HasTask(c.tasks, rp))
  }

  /** New tasks since the pass began are as `new ACTIVE_TASK` leaves them. */
  twostate predicate NewTasksBlank(c: ClientState)
    reads c, c.tasks
  {
    forall t :: t in c.tasks ==>
      t in old(c.tasks) || (!old(allocated(t)) && t.View() == TaskView(Uninitialized, SchedUninitialized, false))
  }

  /** Whether a job fits next to those already admitted.  A task that is too
      large is marked. */
  method Fits(c: ClientState, rp: Result, atp: ActiveTask?, env: Env, level: Admission.Level)
      returns (fits: bool, wss: real)
    requires OneTaskPerResult(c.tasks)
    requires if atp == null then forall t :: t in c.tasks ==> t.result != rp else atp in c.tasks && atp.result == rp
    modifies if atp == null then {} else {atp}`tooLarge
    ensures fits == !Admission.Skipped(level, env.ncpus, CostOf(c, rp, env))
    ensures fits ==> wss == CostOf(c, rp, env).wss
    ensures fits <==>
              && (if atp != null then Lookup(env.taskWss, rp) else Lookup(env.versionWss, rp)) <= level.ram
              && if rp.rscType != 0 then
                   level.cpus < env.ncpus as real || level.cpus + rp.avgNcpus <= env.ncpus as real + 1.0
                 else
                   && level.cpus < env.ncpus as real
                   && (rp.avgNcpus > 1.0 || level.mt ==> level.cpus + rp.avgNcpus <= env.ncpus as real)
    ensures atp != null ==>
              atp.tooLarge == if Admission.NoCpu(level, env.ncpus, CostOf(c, rp, env)) then old(atp.tooLarge)
                              else CostOf(c, rp, env).wss > level.ram
  {
    wss := 0.0;
    if level.cpus >= env.ncpus as real {
      if rp.UsesCoprocs() {
        if level.cpus + rp.avgNcpus > env.ncpus as real + 1.0 { return false, wss; }
      } else {
        return false, wss;
      }
    }
    if !rp.UsesCoprocs() && (level.mt || rp.avgNcpus > 1.0) && level.cpus + rp.avgNcpus > env.ncpus as real {
      return false, wss;
    }
    if atp != null {
      atp.tooLarge := false;
      wss := Lookup(env.taskWss, rp);
    } else {
      wss := Lookup(env.versionWss, rp);
    }
    if wss > level.ram {
      if atp != null {
        atp.tooLarge := true;
      }
      return false, wss;
    }
    return true, wss;
  }

  /** The other jobs ask for what they did before. */
  twostate predicate SameCosts(c: ClientState, rp: Result, list: seq<Result>, env: Env)
    reads c, c.tasks
  {
    forall k :: 0 <= k < |list| && list[k] != rp ==>
      CostOf(c, list[k], env) == old(CostOf(c, list[k], env))
  }

  /** One turn of the admission loop. */
  method AdmitTurn(c: ClientState, rp: Result, env: Env, level: Admission.Level, ghost list: seq<Result>)
      returns (level': Admission.Level, admitted: bool)
    requires OneTaskPerResult(c.tasks)
    modifies c`tasks, (set t | t in c.tasks)`tooLarge, (set t | t in c.tasks)`nextSchedulerState
    ensures OneTaskPerResult(c.tasks) && old(c.tasks) <= c.tasks
    ensures var cost := old(CostOf(c, rp, env));
            admitted == !Admission.Skipped(level, env.ncpus, cost)
            && level' == if admitted then Admission.Charge(level, cost) else level
    ensures NewTasksBlank(c) && forall t :: t in c.tasks && t !in old(c.tasks) ==> t.result == rp && admitted
    ensures admitted ==> exists t :: t in c.tasks && t.result == rp
    ensures forall t :: t in c.tasks && t.result == rp && admitted ==> t.nextSchedulerState == SchedScheduled
    ensures forall t :: t in old(c.tasks) && !(t.result == rp && admitted) ==>
              t.nextSchedulerState == old(t.nextSchedulerState)
    ensures SameCosts(c, rp, list, env)
  {
    level' := level;
    var atp := c.LookupActiveTaskByResult(rp);
    var wss;
    admitted, wss := Fits(c, rp, atp, env, level);
    if admitted {
      if atp == null {
        atp := GetTask(c, rp);
      }
      level' := Admission.Charge(level, Admission.Cost(rp.UsesCoprocs(), rp.avgNcpus, wss));
      atp.nextSchedulerState := SchedScheduled;
    }
  }

  ghost function CostsOf(c: ClientState, rs: seq<Result>, env: Env): (cs: seq<Admission.Cost>)
    reads c, c.tasks
    ensures |cs| == |rs| && forall k :: 0 <= k < |cs| ==> cs[k] == CostOf(c, rs[k], env)
  {
    seq(|rs|, k requires 0 <= k < |rs| reads c, c.tasks => CostOf(c, rs[k], env))
  }

  // ---- who is admitted, on the jobs' own fields -------------------------

  /** CPUs of the admitted ones among the first `k` jobs. */
  ghost function CpusIn(list: seq<Result>, admitted: seq<Result>, k: nat): real
    requires k <= |list|
  {
    if k == 0 then 0.0
    else CpusIn(list, admitted, k - 1) + if list[k - 1] in admitted then list[k - 1].avgNcpus else 0.0
  }

  /** Their working sets. */
  ghost function WssIn(list: seq<Result>, admitted: seq<Result>, wss: seq<real>, k: nat): real
    requires k <= |list| == |wss|
  {
    if k == 0 then 0.0 else WssIn(list, admitted, wss, k - 1) + if list[k - 1] in admitted then wss[k - 1] else 0.0
  }

  ghost predicate MultiThreadIn(list: seq<Result>, admitted: seq<Result>, k: nat)
    requires k <= |list|
  {
    exists m :: 0 <= m < k && list[m] in admitted && list[m].avgNcpus > 1.0
  }

  /** The job at `k` may be admitted: its working set fits what the jobs admitted
      before it leave, and so do its CPUs; a GPU job may take one CPU too many, or any
      number while a CPU is left, and next to a multi-thread job none is taken twice. */
  ghost predicate RoomFor(list: seq<Result>, admitted: seq<Result>, wss: seq<real>, ncpus: nat, ram: real, k: nat)
    requires k < |list| == |wss|
  {
    var r, cpus := list[k], CpusIn(list, admitted, k);
    && wss[k] <= ram - WssIn(list, admitted, wss, k)
    && if r.rscType != 0 then cpus < ncpus as real || cpus + r.avgNcpus <= ncpus as real + 1.0
       else
         && cpus < ncpus as real
         && (r.avgNcpus > 1.0 || MultiThreadIn(list, admitted, k) ==> cpus + r.avgNcpus <= ncpus as real)
  }

  /** Exactly the jobs for which there is room in their turn are admitted. */
  ghost predicate AdmittedAre(list: seq<Result>, admitted: seq<Result>, wss: seq<real>, ncpus: nat, ram: real) {
    && |wss| == |list| && (forall r :: r in admitted ==> r in list)
    && forall k :: 0 <= k < |list| ==> (list[k] in admitted <==> RoomFor(list, admitted, wss, ncpus, ram, k))
  }

  /** The admission on values admits these jobs. */
  ghost predicate AdmittedInTurn(list: seq<Result>, admitted: seq<Result>, costs: seq<Admission.Cost>, ncpus: nat,
                                 ram: real)
  {
    && |costs| == |list| && (forall r :: r in admitted ==> r in list)
    && forall k :: 0 <= k < |list| ==>
         (list[k] in admitted <==>
          !Admission.Skipped(Admission.Admit(Admission.Level(0.0, false, ram), ncpus, costs[..k]).level, ncpus,
            costs[k]))
  }

  ghost predicate CostsAre(list: seq<Result>, costs: seq<Admission.Cost>, wss: seq<real>) {
    && |list| == |costs| == |wss|
    && forall k :: 0 <= k < |list| ==> costs[k] == Admission.Cost(list[k].rscType != 0, list[k].avgNcpus, wss[k])
  }

  lemma {:induction false} LevelIsIn(list: seq<Result>, admitted: seq<Result>, costs: seq<Admission.Cost>,
                                     wss: seq<real>, ncpus: nat, ram: real, k: nat)
    requires AdmittedInTurn(list, admitted, costs, ncpus, ram) && CostsAre(list, costs, wss) && k <= |list|
    ensures Admission.Admit(Admission.Level(0.0, false, ram), ncpus, costs[..k]).level ==
            Admission.Level(CpusIn(list, admitted, k), MultiThreadIn(list, admitted, k),
              ram - WssIn(list, admitted, wss, k))
  {
    if k > 0 {
      LevelIsIn(list, admitted, costs, wss, ncpus, ram, k - 1);
      assert costs[..k][..k - 1] == costs[..k - 1] && costs[..k][k - 1] == costs[k - 1];
      hide Admission.Skipped;
      MultiThreadNext(list, admitted, k);
      assert list[k - 1] in admitted <==>
               !Admission.Skipped(Admission.Admit(Admission.Level(0.0, false, ram), ncpus, costs[..k - 1]).level,
                                  ncpus, costs[k - 1]);
    }
  }

  lemma MultiThreadNext(list: seq<Result>, admitted: seq<Result>, k: nat)
    requires 0 < k <= |list|
    ensures MultiThreadIn(list, admitted, k) <==>
              MultiThreadIn(list, admitted, k - 1) || (list[k - 1] in admitted && list[k - 1].avgNcpus > 1.0)
  {
  }

  /** In terms of the jobs' fields. */
  lemma AdmittedByFields(list: seq<Result>, admitted: seq<Result>, costs: seq<Admission.Cost>, wss: seq<real>,
                         ncpus: nat, ram: real)
    requires AdmittedInTurn(list, admitted, costs, ncpus, ram) && CostsAre(list, costs, wss)
    ensures AdmittedAre(list, admitted, wss, ncpus, ram)
  {
    forall k | 0 <= k < |list| ensures list[k] in admitted <==> RoomFor(list, admitted, wss, ncpus, ram, k) {
      LevelIsIn(list, admitted, costs, wss, ncpus, ram, k);
    }
  }

  /** The admission of the first `n` jobs, against the one on values. */
  ghost predicate Admitting(list: seq<Result>, costs: seq<Admission.Cost>, ncpus: nat, ram: real, n: nat,
                            level: Admission.Level, admitted: seq<Result>, picks: seq<nat>)
  {
    && n <= |list| == |costs| && Distinct(admitted) && (forall r :: r in admitted ==> r in list[..n])
    && (var o := Admission.Admit(Admission.Level(0.0, false, ram), ncpus, costs[..n]);
        && level == o.level && |admitted| == |picks| == |o.admitted|
        && forall k :: 0 <= k < |picks| ==>
             picks[k] < n && admitted[k] == list[picks[k]] && o.admitted[k] == costs[picks[k]])
    && forall k :: 0 <= k < n ==>
         (list[k] in admitted <==>
          !Admission.Skipped(Admission.Admit(Admission.Level(0.0, false, ram), ncpus, costs[..k]).level, ncpus,
            costs[k]))
  }

  lemma AdmittingStarts(list: seq<Result>, costs: seq<Admission.Cost>, ncpus: nat, ram: real)
    requires |list| == |costs|
    ensures Admitting(list, costs, ncpus, ram, 0, Admission.Level(0.0, false, ram), [], [])
  {
  }

  lemma AdmittingNext(list: seq<Result>, costs: seq<Admission.Cost>, ncpus: nat, ram: real, n: nat,
                      level: Admission.Level, admitted: seq<Result>, picks: seq<nat>, ok: bool)
    requires Distinct(list) && Admitting(list, costs, ncpus, ram, n, level, admitted, picks) && n < |list|
    requires ok == !Admission.Skipped(level, ncpus, costs[n])
    ensures Admitting(list, costs, ncpus, ram, n + 1, if ok then Admission.Charge(level, costs[n]) else level,
                      if ok then admitted + [list[n]] else admitted, if ok then picks + [n] else picks)
  {
    hide Admission.Skipped, Admission.Charge;
    assert costs[..n + 1][..n] == costs[..n] && list[..n + 1] == list[..n] + [list[n]];
    forall r | r in list[..n] ensures r != list[n] {
    }
  }

  lemma AdmittingEnds(list: seq<Result>, costs: seq<Admission.Cost>, ncpus: nat, ram: real,
                      level: Admission.Level, admitted: seq<Result>, picks: seq<nat>)
    requires Admitting(list, costs, ncpus, ram, |list|, level, admitted, picks)
    ensures AdmittedInTurn(list, admitted, costs, ncpus, ram) && Distinct(admitted)
    ensures var o := Admission.Admit(Admission.Level(0.0, false, ram), ncpus, costs);
            && level == o.level && |admitted| == |picks| == |o.admitted|
            && forall k :: 0 <= k < |picks| ==>
                 picks[k] < |list| && admitted[k] == list[picks[k]] && o.admitted[k] == costs[picks[k]]
  {
    assert costs[..|list|] == costs && list[..|list|] == list;
  }

  /** The tasks while jobs are being admitted. */
  twostate predicate TasksAdmitted(c: ClientState, new admitted: seq<Result>)
    reads c`tasks, c.tasks`nextSchedulerState
  {
    && (forall r :: r in admitted ==> HasTask(c.tasks, r))
    && (forall t :: t in c.tasks && t !in old(c.tasks) ==> t.result in admitted)
    && (forall t :: t in c.tasks && t.result in admitted ==> t.nextSchedulerState == SchedScheduled)
    && forall t :: t in old(c.tasks) && t in c.tasks && t.result !in admitted ==>
         t.nextSchedulerState == old(t.nextSchedulerState)
  }

  /** The admission loop: mark the jobs that fit as to be scheduled. */
  method AdmitJobs(c: ClientState, list: seq<Result>, env: Env, ram: real)
      returns (level: Admission.Level, ghost admitted: seq<Result>, ghost picks: seq<nat>)
    requires OneTaskPerResult(c.tasks) && Distinct(list)
    modifies c`tasks, (set t | t in c.tasks)`tooLarge, (set t | t in c.tasks)`nextSchedulerState
    ensures OneTaskPerResult(c.tasks) && old(c.tasks) <= c.tasks
    ensures Distinct(admitted) && forall r :: r in admitted ==> r in list && HasTask(c.tasks, r)
    ensures var costs := old(CostsOf(c, list, env));
            var o := Admission.Admit(Admission.Level(0.0, false, ram), env.ncpus, costs);
            && level == o.level && |admitted| == |picks| == |o.admitted|
            && forall k :: 0 <= k < |picks| ==>
                 picks[k] < |list| && admitted[k] == list[picks[k]] && o.admitted[k] == costs[picks[k]]
    ensures AdmittedInTurn(list, admitted, old(CostsOf(c, list, env)), env.ncpus, ram)
    ensures NewTasksBlank(c) && forall t :: t in c.tasks && t !in old(c.tasks) ==> t.result in admitted
    ensures forall t :: t in c.tasks && t.result in admitted ==> t.nextSchedulerState == SchedScheduled
    ensures forall t :: t in old(c.tasks) && t.result !in admitted ==> t.nextSchedulerState == old(t.nextSchedulerState)
  {
    hide Admission.Skipped, Admission.Charge, Admission.Step, Admission.Admit, Admitting, CostOf;
    level, admitted, picks := Admission.Level(0.0, false, ram), [], [];
    ghost var costs := CostsOf(c, list, env);
    AdmittingStarts(list, costs, env.ncpus, ram);
    for n := 0 to |list|
      invariant OneTaskPerResult(c.tasks) && old(c.tasks) <= c.tasks && NewTasksBlank(c)
      invariant Admitting(list, costs, env.ncpus, ram, n, level, admitted, picks) && TasksAdmitted(c, admitted)
      invariant forall k :: n <= k < |list| ==> CostOf(c, list[k], env) == costs[k]
    {
      AdmittingNext(list, costs, env.ncpus, ram, n, level, admitted, picks,
                    !Admission.Skipped(level, env.ncpus, costs[n]));
      var ok;
      level, ok := AdmitTurn(c, list[n], env, level, list);
      if ok {
        admitted, picks := admitted + [list[n]], picks + [n];
      }
    }
    AdmittingEnds(list, costs, env.ncpus, ram, level, admitted, picks);
  }

  // ---- before the assignment --------------------------------------------

  /** Every task is to be preempted unless the pass decides otherwise. */
  method ResetNextStates(c: ClientState)
    modifies c.tasks`nextSchedulerState
    ensures forall t :: t in c.tasks ==> t.nextSchedulerState == SchedPreempted
  {
    for i := 0 to |c.tasks|
      invariant forall k :: 0 <= k < i ==> c.tasks[k].nextSchedulerState == SchedPreempted
    {
      c.tasks[i].nextSchedulerState := SchedPreempted;
    }
  }

  method NumberJobs(list: seq<Result>)
    requires Distinct(list)
    modifies list`seqno, list`unfinishedTimeSlice
    ensures forall k :: 0 <= k < |list| ==> list[k].seqno == k && !list[k].unfinishedTimeSlice
  {
    for i := 0 to |list|
      invariant forall k :: 0 <= k < i ==> list[k].seqno == k && !list[k].unfinishedTimeSlice
    {
      list[i].seqno := i;
      list[i].unfinishedTimeSlice := false;
    }
  }

  /** A task in the middle of its time slice. */
  predicate MidSlice(t: ActiveTask, env: Env)
    reads t`schedulerState
  {
    && t.result in env.runnable && !(t.result.UsesCoprocs() && env.gpuSuspended)
    && !t.result.nonCpuIntensive && t.schedulerState == SchedScheduled && t.result !in env.sliceDone
  }

  method AppendTurn(atp: ActiveTask, list: seq<Result>, seqno: nat, env: Env) returns (list': seq<Result>)
    modifies atp.result`seqno, atp.result`unfinishedTimeSlice
    ensures list' == if MidSlice(atp, env) && atp.result !in list then list + [atp.result] else list
    ensures atp.result.unfinishedTimeSlice == (MidSlice(atp, env) || old(atp.result.unfinishedTimeSlice))
    ensures atp.result.seqno == if list' == list then old(atp.result.seqno) else seqno
  {
    list' := list;
    if MidSlice(atp, env) {
      atp.result.unfinishedTimeSlice := true;
      if atp.result !in list {
        list' := list + [atp.result];
        atp.result.seqno := seqno;
      }
    }
  }

  /** The jobs of the first `n` tasks that are in the middle of their time slice
      and not in the list. */
  ghost function Appended(c: ClientState, runList: seq<Result>, env: Env, n: nat): seq<Result>
    requires n <= |c.tasks|
    reads c`tasks, c.tasks`schedulerState
  {
    if n == 0 then []
    else
      var t := c.tasks[n - 1];
      Appended(c, runList, env, n - 1) + if MidSlice(t, env) && t.result !in runList then [t.result] else []
  }

  lemma {:induction false} AppendedFacts(c: ClientState, runList: seq<Result>, env: Env, n: nat)
    requires n <= |c.tasks| && OneTaskPerResult(c.tasks) && Distinct(runList)
    ensures Distinct(runList + Appended(c, runList, env, n))
    ensures forall r :: r in Appended(c, runList, env, n) <==>
              r !in runList && exists k :: 0 <= k < n && c.tasks[k].result == r && MidSlice(c.tasks[k], env)
    ensures forall r :: r in Appended(c, runList, env, n) ==> HasTask(c.tasks, r)
  {
    if n > 0 {
      AppendedFacts(c, runList, env, n - 1);
      var t := c.tasks[n - 1];
      var before := runList + Appended(c, runList, env, n - 1);
      if MidSlice(t, env) && t.result !in runList {
        assert t.result !in before;
        assert runList + Appended(c, runList, env, n) == before + [t.result];
      } else {
        assert runList + Appended(c, runList, env, n) == before;
      }
    }
  }

  lemma NextIsNotAppended(c: ClientState, runList: seq<Result>, env: Env, n: nat)
    requires n < |c.tasks| && OneTaskPerResult(c.tasks) && Distinct(runList)
    ensures c.tasks[n].result !in Appended(c, runList, env, n)
    ensures var r, before := c.tasks[n].result, runList + Appended(c, runList, env, n);
            runList + Appended(c, runList, env, n + 1) ==
              if MidSlice(c.tasks[n], env) && r !in before then before + [r] else before
  {
    AppendedFacts(c, runList, env, n);
  }

  lemma NoneAppended(c: ClientState, runList: seq<Result>, env: Env)
    ensures runList == runList + Appended(c, runList, env, 0)
  {
  }

  lemma TheOnlyTask(c: ClientState, n: nat)
    requires n < |c.tasks| && OneTaskPerResult(c.tasks)
    ensures forall k :: 0 <= k < |c.tasks| && k != n ==> c.tasks[k].result != c.tasks[n].result
  {
  }

  /** A job in the middle of its time slice is marked so; one that was not in the
      list gets the position behind it. */
  twostate predicate Marked(t: ActiveTask, runList: seq<Result>, env: Env)
    reads t`schedulerState, t.result`seqno, t.result`unfinishedTimeSlice
  {
    && (t.result.unfinishedTimeSlice <==> MidSlice(t, env) || old(t.result.unfinishedTimeSlice))
    && t.result.seqno == if MidSlice(t, env) && t.result !in runList then |runList| else old(t.result.seqno)
  }

  twostate predicate Unmarked(r: Result)
    reads r`seqno, r`unfinishedTimeSlice
  {
    unchanged(r`seqno, r`unfinishedTimeSlice)
  }

  /** Append the jobs that are in the middle of their time slice. */
  method AppendUnfinishedTimeSlice(c: ClientState, runList: seq<Result>, env: Env) returns (list: seq<Result>)
    requires OneTaskPerResult(c.tasks) && Distinct(runList)
    modifies (set t | t in c.tasks :: t.result)`seqno, (set t | t in c.tasks :: t.result)`unfinishedTimeSlice
    ensures list == runList + Appended(c, runList, env, |c.tasks|)
    ensures forall k :: 0 <= k < |c.tasks| ==> Marked(c.tasks[k], runList, env)
  {
    hide Result.UsesCoprocs, Distinct, OneTaskPerResult, MidSlice, Appended;
    list := runList;
    NoneAppended(c, runList, env);
    for i := 0 to |c.tasks|
      invariant list == runList + Appended(c, runList, env, i)
      invariant forall k :: 0 <= k < i ==> Marked(c.tasks[k], runList, env)
      invariant forall k :: i <= k < |c.tasks| ==> Unmarked(c.tasks[k].result)
    {
      NextIsNotAppended(c, runList, env, i);
      TheOnlyTask(c, i);
      list := AppendTurn(c.tasks[i], list, |runList|, env);
    }
  }

  /** Results of a list that are to run outside the CPU limits. */
  predicate RunsAnyway(r: Result, env: Env) {
    r.nonCpuIntensive && r in env.runnable
  }

  function RamAfter(results: seq<Result>, env: Env): real {
    if results == [] then env.ram
    else
      var r := results[|results| - 1];
      RamAfter(results[..|results| - 1], env) - if RunsAnyway(r, env) then Lookup(env.taskWss, r) else 0.0
  }

  /** The smoothed working sets of the tasks that are to run anyway are set aside. */
  lemma RamIsSetAside(results: seq<Result>, r: Result, env: Env)
    ensures RamAfter([], env) == env.ram
    ensures RamAfter(results + [r], env) ==
            RamAfter(results, env) -
            if r.nonCpuIntensive && r in env.runnable then (if r in env.taskWss then env.taskWss[r] else 0.0) else 0.0
  {
    assert (results + [r])[..|results|] == results;
  }

  method NciTurn(c: ClientState, rp: Result, env: Env, ram: real) returns (ram': real)
    requires OneTaskPerResult(c.tasks)
    modifies c`tasks, (set t | t in c.tasks)`nextSchedulerState
    ensures OneTaskPerResult(c.tasks) && old(c.tasks) <= c.tasks && NewTasksBlank(c)
    ensures ram' == ram - if RunsAnyway(rp, env) then Lookup(env.taskWss, rp) else 0.0
    ensures RunsAnyway(rp, env) ==> HasTask(c.tasks, rp)
    ensures forall t :: t in c.tasks && t !in old(c.tasks) ==> t.result == rp && RunsAnyway(rp, env)
    ensures forall t :: t in c.tasks && t.result == rp && RunsAnyway(rp, env) ==> t.nextSchedulerState == SchedScheduled
    ensures forall t :: t in old(c.tasks) && !(t.result == rp && RunsAnyway(rp, env)) ==>
              t.nextSchedulerState == old(t.nextSchedulerState)
  {
    ram' := ram;
    if RunsAnyway(rp, env) {
      var atp := GetTask(c, rp);
      atp.nextSchedulerState := SchedScheduled;
      ram' := ram - Lookup(env.taskWss, rp);
    }
  }

  /** Schedule the non-CPU-intensive jobs and set their memory aside. */
  method ScheduleNonCpuIntensive(c: ClientState, env: Env) returns (ram: real)
    requires OneTaskPerResult(c.tasks)
    modifies c`tasks, (set t | t in c.tasks)`nextSchedulerState
    ensures OneTaskPerResult(c.tasks) && old(c.tasks) <= c.tasks && NewTasksBlank(c) && ram == RamAfter(c.results, env)
    ensures forall t :: t in c.tasks && t !in old(c.tasks) ==> t.result in c.results && RunsAnyway(t.result, env)
    ensures forall k :: 0 <= k < |c.results| && RunsAnyway(c.results[k], env) ==> HasTask(c.tasks, c.results[k])
    ensures forall t :: t in c.tasks && t.result in c.results && RunsAnyway(t.result, env) ==>
              t.nextSchedulerState == SchedScheduled
    ensures forall t ::
              t in old(c.tasks) && !RunsAnyway(t.result, env) ==> t.nextSchedulerState == old(t.nextSchedulerState)
  {
    ram := env.ram;
    for i := 0 to |c.results|
      invariant OneTaskPerResult(c.tasks) && old(c.tasks) <= c.tasks && NewTasksBlank(c)
                && ram == RamAfter(c.results[..i], env)
      invariant forall t :: t in c.tasks && t !in old(c.tasks) ==> t.result in c.results && RunsAnyway(t.result, env)
      invariant forall k :: 0 <= k < i && RunsAnyway(c.results[k], env) ==> HasTask(c.tasks, c.results[k])
      invariant forall t :: t in c.tasks && t.result in c.results[..i] && RunsAnyway(t.result, env) ==>
                  t.nextSchedulerState == SchedScheduled
      invariant forall t ::
                  t in old(c.tasks) && !RunsAnyway(t.result, env) ==> t.nextSchedulerState == old(t.nextSchedulerState)
    {
      assert c.results[..i + 1] == c.results[..i] + [c.results[i]];
      ram := NciTurn(c, c.results[i], env, ram);
    }
    assert c.results[..|c.results|] == c.results;
  }

  // ---- the pass ---------------------------------------------------------

  ghost predicate GrantOk(c: ClientState)
    reads c`granted
  {
    && JobsOk(c.granted, c.Sizes()) && AllFit(c.Sizes(), c.granted)
    && forall k :: 0 <= k < |c.granted| ==> c.granted[k].running
  }

  /** The decisions are made: a GPU task that is to be scheduled has been
      granted its instances, and so far only scheduled ones execute. */
  ghost predicate Decided(c: ClientState)
    reads c`tasks, c`results, c`granted, c.coprocs, c.results`coprocIndices
    reads c.tasks`taskState, c.tasks`schedulerState, c.tasks`nextSchedulerState
  {
    && c.Shape() && GrantOk(c)
    && forall t :: t in c.tasks && t.result.UsesCoprocs() ==>
         && t.result in c.results
         && t.nextSchedulerState in {SchedPreempted, SchedScheduled}
         && (t.nextSchedulerState == SchedScheduled ==> t.result.AsJob(true) in c.granted)
         && (t.taskState == Executing ==> t.schedulerState == SchedScheduled)
  }

  ghost predicate GpuQuitting(c: ClientState)
    reads c`tasks, c.tasks`taskState
  {
    exists t :: t in c.tasks && t.result.UsesCoprocs() && t.taskState == QuitPending
  }

  /** The two loops over one GPU task. */
  lemma GpuTaskTurns(v: TaskView, next: SchedulerState, tooLarge: bool, ce: bool, cc: bool, leave: bool, quit: bool,
                     how: StartOutcome)
    requires next in {SchedPreempted, SchedScheduled} && (v.state == Executing ==> v.sched == SchedScheduled)
    ensures var p := AfterPreemptTurn(v, next, true, tooLarge, ce, cc, leave);
            forall f :: f == p || f == AfterStartTurn(p, next, true, quit, how) ==>
              && (f.sched == SchedScheduled ==> next == SchedScheduled)
              && (f.state == Executing ==> f.sched == SchedScheduled)
              && (f.state == QuitPending <==> p.state == QuitPending)
              && (quit && f.state == Executing ==> v.state == Executing)
              && (f.state == Suspended ==> v.state == Suspended)
  {
  }

  /** Final view of a task that began as `v`, given whether the start loop reached it. */
  ghost function FinalView(t: ActiveTask, v: TaskView, leave: bool, reached: bool, quit: bool,
                           how: StartOutcome): TaskView
    reads t`nextSchedulerState, t`tooLarge, t`checkpointedElapsed, t`checkpointedCpu
  {
    var p := AfterPreemptTurn(v, t.nextSchedulerState, t.result.UsesCoprocs(), t.tooLarge,
                              t.checkpointedElapsed, t.checkpointedCpu, leave);
    if reached then AfterStartTurn(p, t.nextSchedulerState, t.result.UsesCoprocs(), quit, how) else p
  }

  /** A task that is to be preempted: one that executes quits if it is for a GPU or too
      large, or has checkpointed and may not stay in memory, and is suspended otherwise;
      a suspended one quits if it has checkpointed and may not stay. */
  lemma PreemptedTaskEnds(t: ActiveTask, v: TaskView, leave: bool, reached: bool, quit: bool, how: StartOutcome)
    requires t.nextSchedulerState == SchedPreempted
    ensures var w := FinalView(t, v, leave, reached, quit, how);
            && w.sched == SchedPreempted && w.shm == v.shm
            && (v.state == Executing ==>
                  (w.state == QuitPending <==>
                   t.result.rscType != 0 || t.tooLarge || (t.checkpointedElapsed && !leave)))
            && (v.state == Executing && w.state != QuitPending ==> w.state == if v.shm then Suspended else Executing)
            && (v.state == Suspended ==> w.state == if t.checkpointedCpu && !leave then QuitPending else Suspended)
            && (v.state !in {Executing, Suspended} ==> w.state == v.state)
  {
  }

  /** A task that is to be scheduled starts or resumes in its turn, but not a GPU task
      while another is quitting; it counts as scheduled unless it waits for that or
      could not be started. */
  lemma ScheduledTaskEnds(t: ActiveTask, v: TaskView, leave: bool, reached: bool, quit: bool, how: StartOutcome)
    requires t.nextSchedulerState == SchedScheduled
    ensures var w, waits := FinalView(t, v, leave, reached, quit, how), t.result.rscType != 0 && quit;
            && (w.state == Executing <==>
                || v.state == Executing
                || (reached && !waits && v.state == Uninitialized && how == Started)
                || (reached && !waits && v.state == Suspended && v.shm))
            && (w.sched == SchedScheduled <==>
                || v.sched == SchedScheduled
                || (reached && v.state !in {Uninitialized, Suspended})
                || (reached && !waits && !(v.state == Uninitialized && how in {NoShm, StartError})))
            && (v.state !in {Uninitialized, Suspended} || !reached || waits ==> w.state == v.state)
            && (w.sched != SchedScheduled ==> w.sched == v.sched)
  {
  }

  method PreemptAndStart(c: ClientState, env: Env, starts: map<Result, StartOutcome>, slowFrom: nat)
      returns (ghost stop: nat, ghost quit: bool)
    requires OneTaskPerResult(c.tasks)
    modifies c.tasks`taskState, c.tasks`schedulerState, c.tasks`hasShm
    ensures stop <= |c.tasks| && (stop < |c.tasks| ==> slowFrom < stop)
    ensures forall k :: 0 <= k < |c.tasks| ==>
              c.tasks[k].View() ==
              FinalView(c.tasks[k], old(c.tasks[k].View()), env.leaveInMemory, k < stop, quit,
                HowItStarts(starts, c.tasks[k].result))
    ensures quit == exists k :: 0 <= k < |c.tasks| && c.tasks[k].result.UsesCoprocs() &&
                      old(PreemptedView(c.tasks[k], env.leaveInMemory)).state == QuitPending
  {
    var quitPending := PreemptTasks(c, env.leaveInMemory);
    quit := quitPending;
    stop := StartTasks(c, quitPending, starts, slowFrom);
  }

  /** Preempt and start as decided.  While a GPU task is quitting, no GPU task
      starts or resumes. */
  method ApplyDecisions(c: ClientState, env: Env, starts: map<Result, StartOutcome>, slowFrom: nat)
      returns (ghost stop: nat, ghost quit: bool)
    requires Decided(c)
    modifies c.tasks`taskState, c.tasks`schedulerState, c.tasks`hasShm
    ensures c.Safe() && stop <= |c.tasks| && (stop < |c.tasks| ==> slowFrom < stop)
    ensures quit == GpuQuitting(c)
    ensures forall k :: 0 <= k < |c.tasks| ==>
              c.tasks[k].View() ==
              FinalView(c.tasks[k], old(c.tasks[k].View()), env.leaveInMemory, k < stop, quit,
                HowItStarts(starts, c.tasks[k].result))
    ensures quit ==> forall t :: t in c.tasks && t.result.UsesCoprocs() && t.taskState == Executing ==>
              old(t.taskState) == Executing
    ensures forall t ::
              t in c.tasks && t.result.UsesCoprocs() && t.taskState == Suspended ==> old(t.taskState) == Suspended
  {
    stop, quit := PreemptAndStart(c, env, starts, slowFrom);
    forall k | 0 <= k < |c.tasks| && c.tasks[k].result.UsesCoprocs()
      ensures c.TaskSafe(c.tasks[k])
      ensures c.tasks[k].taskState == QuitPending <==>
                old(PreemptedView(c.tasks[k], env.leaveInMemory)).state == QuitPending
      ensures quit && c.tasks[k].taskState == Executing ==> old(c.tasks[k].taskState) == Executing
      ensures c.tasks[k].taskState == Suspended ==> old(c.tasks[k].taskState) == Suspended
    {
      var t := c.tasks[k];
      GpuTaskTurns(old(t.View()), t.nextSchedulerState, t.tooLarge, t.checkpointedElapsed, t.checkpointedCpu,
                   env.leaveInMemory, quit, HowItStarts(starts, t.result));
      assert t.View().state == t.taskState && t.View().sched == t.schedulerState;
    }
  }

  /** Executing GPU tasks sit where the last pass put them, so the assignment
      can start from what they hold. */
  lemma RunningJobsHoldTheirInstances(c: ClientState, list: seq<Result>)
    requires c.Shape() && GrantOk(c) && Distinct(list) && forall r :: r in list ==> r in c.results
    requires forall t ::
               t in c.tasks && t.result.UsesCoprocs() && t.taskState == Executing ==> t.result.AsJob(true) in c.granted
    ensures c.Assignable(list, c.Running())
  {
    var js := ClientState.AsJobs(list, c.Running());
    forall k | 0 <= k < |js| ensures JobOk(js[k], c.Sizes()) {
      var r := list[k];
      assert r in c.results && js[k] == r.AsJob(r in c.Running());
      if r.UsesCoprocs() && r in c.Running() {
        assert r.AsJob(true) in c.granted;
        var m :| 0 <= m < |c.granted| && c.granted[m] == r.AsJob(true);
        assert JobOk(c.granted[m], c.Sizes());
      }
    }
  }

  /** The grants are what the assignment makes of the offered jobs, in the
      order of the pruned list. */
  ghost predicate Grants(c: ClientState, offered: seq<Job>, kept: seq<Result>)
    reads c`granted
  {
    && JobsOk(offered, c.Sizes()) && c.granted == GpuAssignment.Started(Assign(c.Sizes(), offered).kept)
    && |kept| == |c.granted| && forall k :: 0 <= k < |kept| ==> kept[k].id == c.granted[k].id
  }

  lemma KeptAreGranted(c: ClientState, kept: seq<Result>)
    requires c.granted == GpuAssignment.Started(ClientState.AsJobs(kept, c.Running()))
    ensures |kept| == |c.granted| && forall k :: 0 <= k < |kept| ==> kept[k].id == c.granted[k].id
    ensures forall r :: r in kept ==> r.AsJob(true) in c.granted
  {
    forall r | r in kept ensures r.AsJob(true) in c.granted {
      var k :| 0 <= k < |kept| && kept[k] == r;
      assert c.granted[k] == r.AsJob(true);
    }
  }

  /** Assign the GPU instances and note the grants. */
  method GrantInstances(c: ClientState, list: seq<Result>) returns (kept: seq<Result>, ghost offered: seq<Job>)
    requires c.Shape() && GrantOk(c) && Distinct(list) && forall r :: r in list ==> r in c.results
    requires forall t ::
               t in c.tasks && t.result.UsesCoprocs() && t.taskState == Executing ==> t.result.AsJob(true) in c.granted
    modifies c`granted, c.coprocs, (set r | r in list)`coprocIndices
    ensures c.Shape() && GrantOk(c)
    ensures offered == old(ClientState.AsJobs(list, c.Running()))
    ensures Grants(c, offered, kept)
    ensures Distinct(kept) && forall r :: r in kept ==> r in list
    ensures forall r :: r in kept ==> r.AsJob(true) in c.granted
    ensures forall r :: r in list && !r.UsesCoprocs() ==> r in kept
    ensures IndicesKept(old(c.Running()))
  {
    hide OutcomeOk, On, AssignFrom, JobOk, GpuAssignment.Started, Assign, Distinct, Filter, UsageOk;
    RunningJobsHoldTheirInstances(c, list);
    offered := ClientState.AsJobs(list, c.Running());
    kept := c.AssignCoprocs(list);
    c.granted := GpuAssignment.Started(ClientState.AsJobs(kept, c.Running()));
    GrantFits(c.Sizes(), offered);
    KeptAreGranted(c, kept);
  }

  /** What a pass decided: the GPU jobs as they were offered, the list after
      pruning, what its jobs ask for, and those admitted, by position too. */
  datatype Decision = Decision(
    offered: seq<Job>, kept: seq<Result>, costs: seq<Admission.Cost>, admitted: seq<Result>, picks: seq<nat>)

  /** The jobs admitted are those that the admission loop picks from the pruned
      list, given what they ask for; `tasked` are the results that had a task
      before the pass. */
  ghost predicate AdmissionOk(d: Decision, env: Env, results: seq<Result>, tasked: set<Result>) {
    var o := Admission.Admit(Admission.Level(0.0, false, RamAfter(results, env)), env.ncpus, d.costs);
    && |d.costs| == |d.kept| && |d.admitted| == |d.picks| == |o.admitted|
    && (forall k :: 0 <= k < |d.costs| ==>
          d.costs[k] == CostFor(d.kept[k], env, d.kept[k] in tasked || RunsAnyway(d.kept[k], env)))
    && (forall k :: 0 <= k < |d.picks| ==>
          d.picks[k] < |d.kept| && d.admitted[k] == d.kept[d.picks[k]] && o.admitted[k] == d.costs[d.picks[k]])
    && AdmittedInTurn(d.kept, d.admitted, d.costs, env.ncpus, RamAfter(results, env))
  }

  /** Working sets: the smoothed one of the task if there is one, or else the largest
      of the application version. */
  ghost function WorkingSets(rs: seq<Result>, env: Env, tasked: set<Result>): (wss: seq<real>)
    ensures |wss| == |rs|
    ensures forall k :: 0 <= k < |rs| ==>
              wss[k] == Lookup(if rs[k] in tasked || (rs[k].nonCpuIntensive && rs[k] in env.runnable) then env.taskWss
                               else env.versionWss, rs[k])
  {
    seq(|rs|, k requires 0 <= k < |rs| => CostFor(rs[k], env, rs[k] in tasked || RunsAnyway(rs[k], env)).wss)
  }

  lemma AdmissionIs(d: Decision, env: Env, results: seq<Result>, tasked: set<Result>)
    requires AdmissionOk(d, env, results, tasked)
    ensures AdmittedAre(d.kept, d.admitted, WorkingSets(d.kept, env, tasked), env.ncpus, RamAfter(results, env))
  {
    hide AdmittedInTurn, AdmittedAre;
    AdmittedByFields(d.kept, d.admitted, d.costs, WorkingSets(d.kept, env, tasked), env.ncpus, RamAfter(results, env));
  }

  /** A task is to be scheduled exactly if its job was admitted or runs anyway. */
  ghost predicate NextStatesAre(c: ClientState, env: Env, admitted: seq<Result>)
    reads c`tasks, c`results, c.tasks`nextSchedulerState
  {
    && (forall t :: t in c.tasks ==> t.result in c.results)
    && (forall t :: t in c.tasks ==>
          t.nextSchedulerState == if t.result in admitted || RunsAnyway(t.result, env) then SchedScheduled
            else SchedPreempted)
    && (forall r :: r in admitted ==> HasTask(c.tasks, r))
  }

  /** Executing GPU tasks are scheduled and sit where the last pass put them. */
  ghost predicate GpuTasksPut(c: ClientState)
    reads c`tasks, c`results, c`granted, c.coprocs, c.results`coprocIndices
    reads c.tasks`taskState, c.tasks`schedulerState, c.tasks`nextSchedulerState
  {
    && c.Shape() && GrantOk(c)
    && forall t :: t in c.tasks && t.result in c.results && t.result.UsesCoprocs() && t.taskState == Executing ==>
         t.schedulerState == SchedScheduled && t.result.AsJob(true) in c.granted
  }

  ghost function Tasked(c: ClientState): set<Result>
    reads c`tasks
  {
    set t | t in c.tasks :: t.result
  }

  /** The results with a task are those in `tasked` and those that run anyway. */
  ghost predicate TaskedNow(c: ClientState, env: Env, tasked: set<Result>)
    reads c`tasks, c`results
  {
    forall r :: r in c.results ==> (HasTask(c.tasks, r) <==> r in tasked || RunsAnyway(r, env))
  }

  lemma TaskedAfter(c: ClientState, env: Env, was: seq<ActiveTask>, tasked: set<Result>)
    requires was <= c.tasks && tasked == set t | t in was :: t.result
    requires forall t :: t in c.tasks && t !in was ==> t.result in c.results && RunsAnyway(t.result, env)
    requires forall k :: 0 <= k < |c.results| && RunsAnyway(c.results[k], env) ==> HasTask(c.tasks, c.results[k])
    ensures TaskedNow(c, env, tasked)
  {
    forall r | r in c.results
      ensures HasTask(c.tasks, r) <==> r in tasked || RunsAnyway(r, env)
    {
      if r in tasked {
        var t :| t in was && t.result == r;
        assert t in c.tasks;
      }
    }
  }

  method SetNciAside(c: ClientState, env: Env) returns (ram: real)
    requires GpuTasksPut(c) && forall t :: t in c.tasks ==> t.nextSchedulerState == SchedPreempted
    modifies c`tasks, (set t | t in c.tasks)`nextSchedulerState
    ensures GpuTasksPut(c) && NewTasksBlank(c) && old(c.tasks) <= c.tasks
    ensures c.Running() == old(c.Running()) && ram == RamAfter(c.results, env)
    ensures NextStatesAre(c, env, []) && TaskedNow(c, env, old(Tasked(c)))
  {
    ghost var was, tasked := c.tasks, Tasked(c);
    ram := ScheduleNonCpuIntensive(c, env);
    TaskedAfter(c, env, was, tasked);
  }

  /** Admission over the pruned list. */
  method AdmitGranted(c: ClientState, kept: seq<Result>, env: Env, ram: real, ghost tasked: set<Result>)
      returns (ghost costs: seq<Admission.Cost>, ghost admitted: seq<Result>, ghost picks: seq<nat>)
    requires c.Shape() && GrantOk(c) && NextStatesAre(c, env, []) && ram == RamAfter(c.results, env)
             && TaskedNow(c, env, tasked)
    requires forall t ::
               t in c.tasks && t.result.UsesCoprocs() && t.taskState == Executing ==> t.schedulerState == SchedScheduled
    requires Distinct(kept) && forall r :: r in kept ==> r in c.results && r.AsJob(true) in c.granted
    modifies c`tasks, (set t | t in c.tasks)`tooLarge, (set t | t in c.tasks)`nextSchedulerState
    ensures Decided(c) && NewTasksBlank(c) && old(c.tasks) <= c.tasks && NextStatesAre(c, env, admitted)
    ensures AdmissionOk(Decision([], kept, costs, admitted, picks), env, c.results, tasked)
  {
    costs := CostsOf(c, kept, env);
    var level;
    level, admitted, picks := AdmitJobs(c, kept, env, ram);
  }

  /** Assign GPU instances, then admit what CPUs and memory allow. */
  method AssignAndAdmit(c: ClientState, list: seq<Result>, env: Env, ram: real, ghost tasked: set<Result>)
      returns (ghost d: Decision)
    requires GpuTasksPut(c) && NextStatesAre(c, env, []) && ram == RamAfter(c.results, env) && TaskedNow(c, env, tasked)
    requires Distinct(list) && forall r :: r in list ==> r in c.results
    modifies c`tasks, c`granted, c.coprocs, (set r | r in list)`coprocIndices
    modifies (set t | t in c.tasks)`tooLarge, (set t | t in c.tasks)`nextSchedulerState
    ensures Decided(c) && NewTasksBlank(c) && old(c.tasks) <= c.tasks
    ensures NextStatesAre(c, env, d.admitted) && AdmissionOk(d, env, c.results, tasked)
    ensures d.offered == old(ClientState.AsJobs(list, c.Running())) && Grants(c, d.offered, d.kept)
    ensures IndicesKept(old(c.Running()))
  {
    hide Grants, TaskedNow, RamAfter;
    var kept, offered := GrantInstances(c, list);
    ghost var costs, admitted, picks := AdmitGranted(c, kept, env, ram, tasked);
    d := Decision(offered, kept, costs, admitted, picks);
  }

  /** Decide what is to run. */
  method Decide(c: ClientState, list: seq<Result>, env: Env) returns (ghost d: Decision)
    requires GpuTasksPut(c) && forall t :: t in c.tasks ==> t.nextSchedulerState == SchedPreempted
    requires Distinct(list) && forall r :: r in list ==> r in c.results
    modifies c`tasks, c`granted, c.coprocs, (set r | r in list)`coprocIndices
    modifies (set t | t in c.tasks)`tooLarge, (set t | t in c.tasks)`nextSchedulerState
    ensures Decided(c) && NewTasksBlank(c) && old(c.tasks) <= c.tasks
    ensures NextStatesAre(c, env, d.admitted) && AdmissionOk(d, env, c.results, old(Tasked(c)))
    ensures d.offered == old(ClientState.AsJobs(list, c.Running())) && Grants(c, d.offered, d.kept)
    ensures IndicesKept(old(c.Running()))
  {
    hide AdmissionOk, Grants, NextStatesAre, Decided, TaskedNow, GpuTasksPut, RamAfter, Distinct,
         Share, RowOk, AddShare;
    ghost var tasked, offered := Tasked(c), ClientState.AsJobs(list, c.Running());
    var ram := SetNciAside(c, env);
    assert ClientState.AsJobs(list, c.Running()) == offered;
    d := AssignAndAdmit(c, list, env, ram, tasked);
  }
}
