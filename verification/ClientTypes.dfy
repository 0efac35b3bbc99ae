/** The client's records (client/client_types.h, client/project.h, client/result.h,
    client/app.h): the objects whose fields the scheduler, the task control code,
    the job selection and the garbage collection update in place. */
module ClientTypes {
  import opened GpuAssignment
  import opened Lists

  /** Length of `coproc_indices` (client/client_types.h:55, client/result.h:176). */
  const MAX_COPROCS_PER_JOB: nat := 8

  type NonNegReal = x: real | 0.0 <= x

  type PosReal = x: real | 0.0 < x witness 1.0

  datatype TaskState =
    | Uninitialized | Executing | Suspended | AbortPending | QuitPending | CopyPending
    | Exited | WasSignaled | ExitUnknown | Aborted | CouldntStart

  datatype SchedulerState = SchedUninitialized | SchedPreempted | SchedScheduled

  /** A project; `deadlinesMissedCopy` counts by resource type. */
  class Project {
    const resourceShare: NonNegReal
    const nonCpuIntensive: bool
    const suspended: bool
    const anonymousPlatform: bool
    var userFiles: seq<FileInfo>
    var projectFiles: seq<FileInfo>
    var resourceShareFrac: real
    var recTemp: real
    var schedPriority: real
    var nextRunnableResult: Result?
    var deadlinesMissedCopy: nat -> int

    constructor (share: NonNegReal, nci: bool, suspended: bool, anonymous: bool)
      ensures resourceShare == share && nonCpuIntensive == nci && this.suspended == suspended
              && anonymousPlatform == anonymous
      ensures nextRunnableResult == null && userFiles == projectFiles == []
    {
      resourceShare, nonCpuIntensive, this.suspended, anonymousPlatform := share, nci, suspended, anonymous;
      userFiles, projectFiles := [], [];
      resourceShareFrac, recTemp, schedPriority, nextRunnableResult, deadlinesMissedCopy :=
        0.0, 0.0, 0.0, null, (rt: nat) => 0;
    }
  }

  class App {
    const project: Project

    constructor (p: Project) {
      project := p;
    }
  }

  class FileInfo {
    const project: Project
    var status: int
    var sticky: bool
    var refCnt: nat
    var persFileXfer: PersFileXfer?

    constructor (p: Project) {
      project := p;
      status, sticky, refCnt, persFileXfer := 0, false, 0, null;
    }
  }

  class FileXfer {
    const fip: FileInfo

    constructor (f: FileInfo) {
      fip := f;
    }
  }

  class PersFileXfer {
    const fip: FileInfo
    var fxp: FileXfer?

    constructor (f: FileInfo) {
      fip := f;
      fxp := null;
    }
  }

  class AppVersion {
    const project: Project
    const app: App
    const versionNum: int
    const planClass: string
    const platform: string
    const appFiles: seq<FileInfo>
    var refCnt: nat

    constructor (p: Project, app: App, versionNum: int, planClass: string, platform: string, appFiles: seq<FileInfo>) {
      project, this.app, this.versionNum := p, app, versionNum;
      this.planClass, this.platform, this.appFiles := planClass, platform, appFiles;
      refCnt := 0;
    }
  }

  class Workunit {
    const project: Project
    const app: App
    const inputFiles: seq<FileInfo>
    var refCnt: nat

    constructor (p: Project, app: App, inputFiles: seq<FileInfo>) {
      project, this.app, this.inputFiles := p, app, inputFiles;
      refCnt := 0;
    }
  }

  /** A job.  The fields that other parts of the client decide before the
      scheduler runs are constants; `excluded` are the GPU instances that the
      configuration keeps its application off. */
  class Result {
    const id: nat
    const project: Project
    const app: App
    const wup: Workunit
    const avp: AppVersion
    const outputFiles: seq<FileInfo>
    const rscType: nat
    const gpuUsage: NonNegReal
    const avgNcpus: real
    const excluded: set<nat>
    const nonCpuIntensive: bool
    var gotServerAck: bool
    var coprocIndices: seq<nat>
    var alreadySelected: bool
    var notStarted: bool
    var edfScheduled: bool
    var unfinishedTimeSlice: bool
    var seqno: nat

    constructor (id: nat, wup: Workunit, avp: AppVersion, outputFiles: seq<FileInfo>,
                 rscType: nat, gpuUsage: NonNegReal, avgNcpus: real, excluded: set<nat>, nci: bool)
      ensures this.id == id && project == wup.project && app == wup.app && this.wup == wup && this.avp == avp
      ensures this.outputFiles == outputFiles && this.rscType == rscType && this.gpuUsage == gpuUsage
      ensures this.avgNcpus == avgNcpus && this.excluded == excluded && nonCpuIntensive == nci
      ensures |coprocIndices| == MAX_COPROCS_PER_JOB && !gotServerAck
    {
      this.id, project, app, this.wup, this.avp, this.outputFiles := id, wup.project, wup.app, wup, avp, outputFiles;
      this.rscType, this.gpuUsage, this.avgNcpus, this.excluded, nonCpuIntensive :=
        rscType, gpuUsage, avgNcpus, excluded, nci;
      coprocIndices := seq(MAX_COPROCS_PER_JOB, i => 0);
      gotServerAck, alreadySelected, notStarted, edfScheduled, unfinishedTimeSlice, seqno :=
        false, false, false, false, false, 0;
    }

    predicate UsesCoprocs() {
      rscType != 0
    }

    /** A GPU job asks for a fraction of one instance, or for as many whole
        instances as `coproc_indices` can record. */
    predicate UsageOk() {
      rscType != 0 ==> GpuAssignment.UsageOk(gpuUsage) && Count(gpuUsage) <= MAX_COPROCS_PER_JOB
    }

    /** The instances recorded for the job. */
    ghost function Held(): seq<nat>
      reads this`coprocIndices
    {
      HeldAmong(coprocIndices)
    }

    ghost function HeldAmong(indices: seq<nat>): seq<nat> {
      if 0.0 < gpuUsage && Count(gpuUsage) <= |indices| then indices[..Count(gpuUsage)] else []
    }

    ghost function AsJob(running: bool): Job
      reads this`coprocIndices
    {
      Job(id, rscType, gpuUsage, excluded, running, Held())
    }
  }

  /** The part of a task that decides whether it runs. */
  datatype TaskView = TaskView(state: TaskState, sched: SchedulerState, shm: bool)

  /** `init` (client/app.cpp:239-249) takes workunit and app version from the result. */
  class ActiveTask {
    const result: Result
    const wup: Workunit
    const appVersion: AppVersion
    var taskState: TaskState
    var schedulerState: SchedulerState
    var nextSchedulerState: SchedulerState
    var tooLarge: bool
    var hasShm: bool
    var checkpointedElapsed: bool
    var checkpointedCpu: bool

    constructor (result: Result)
      ensures this.result == result && wup == result.wup && appVersion == result.avp
              && View() == TaskView(Uninitialized, SchedUninitialized, false)
      ensures !tooLarge && !checkpointedElapsed && !checkpointedCpu
    {
      this.result, wup, appVersion := result, result.wup, result.avp;
      taskState, schedulerState, nextSchedulerState := Uninitialized, SchedUninitialized, SchedUninitialized;
      tooLarge, hasShm, checkpointedElapsed, checkpointedCpu := false, false, false, false;
    }

    ghost function View(): TaskView
      reads this
    {
      TaskView(taskState, schedulerState, hasShm)
    }
  }

  ghost predicate HasTask(tasks: seq<ActiveTask>, r: Result) {
    exists t :: t in tasks && t.result == r
  }

  ghost predicate OneTaskPerResult(tasks: seq<ActiveTask>) {
    forall i, j :: 0 <= i < j < |tasks| ==> tasks[i].result != tasks[j].result
  }

  lemma {:induction false} FilterTasks(tasks: seq<ActiveTask>, keep: set<ActiveTask>)
    requires OneTaskPerResult(tasks)
    ensures OneTaskPerResult(Filter(tasks, keep))
  {
    if tasks != [] {
      var front, last := tasks[..|tasks| - 1], tasks[|tasks| - 1];
      FilterTasks(front, keep);
      FilterMembers(front, keep);
      forall k | 0 <= k < |Filter(front, keep)| ensures Filter(front, keep)[k].result != last.result {
        assert Filter(front, keep)[k] in Filter(front, keep);
        var m :| 0 <= m < |front| && front[m] == Filter(front, keep)[k];
        assert tasks[m].result != tasks[|tasks| - 1].result;
      }
    }
  }
}
