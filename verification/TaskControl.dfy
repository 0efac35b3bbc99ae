/** What the client does to one task: preempt, suspend, resume, start, and the
    handling of its exit (client/app.cpp:140-188, client/app_control.cpp,
    client/app_start.cpp:1068-1118).  Messages to the application are the
    subject of `ProcessControl`. */
module TaskControl {
  import opened ClientTypes

  datatype PreemptType = RemoveNever | RemoveMaybeUser | RemoveMaybeSched | RemoveAlways

  /** How `ACTIVE_TASK::start` ends: the process runs, a file copy goes on in
      the background, no shared memory could be had, or an error. */
  datatype StartOutcome = Started | CopyGoesOn | NoShm | StartError

  predicate RemovesFromMemory(gpu: bool, how: PreemptType, checkpointed: bool, leaveInMemory: bool) {
    match how
    case RemoveNever => false
    case RemoveAlways => true
    case _ => gpu || (checkpointed && !leaveInMemory)
  }

  method RequestExit(atp: ActiveTask)
    modifies atp`taskState
    ensures atp.taskState == QuitPending
  {
    atp.taskState := QuitPending;
  }

  /** Without shared memory the process cannot be told, and nothing changes. */
  method Suspend(atp: ActiveTask)
    modifies atp`taskState
    ensures atp.taskState == if atp.hasShm then Suspended else old(atp.taskState)
  {
    if !atp.hasShm { return; }
    atp.taskState := Suspended;
  }

  method Unsuspend(atp: ActiveTask)
    modifies atp`taskState
    ensures atp.taskState == if atp.hasShm then Executing else old(atp.taskState)
  {
    if !atp.hasShm { return; }
    atp.taskState := Executing;
  }

  method Preempt(atp: ActiveTask, how: PreemptType, leaveInMemory: bool)
    modifies atp`taskState
    ensures atp.taskState ==
            if RemovesFromMemory(atp.result.UsesCoprocs(), how, atp.checkpointedElapsed, leaveInMemory) then QuitPending
            else if atp.hasShm then Suspended else old(atp.taskState)
    ensures old(atp.taskState) != QuitPending ==>
              (atp.taskState == QuitPending <==>
               || how == RemoveAlways
               || (how != RemoveNever && (atp.result.rscType != 0 || (atp.checkpointedElapsed && !leaveInMemory))))
  {
    var remove := false;
    match how {
      case RemoveNever =>
      case RemoveAlways => remove := true;
      case _ =>
        if atp.result.UsesCoprocs() {
          remove := true;
        } else if !atp.checkpointedElapsed {
          remove := false;
        } else {
          remove := !leaveInMemory;
        }
    }
    if remove {
      RequestExit(atp);
    } else {
      Suspend(atp);
    }
  }

  /** State after `start`, given how it ends. */
  function AfterStart(v: TaskView, how: StartOutcome): TaskView {
    match how
    case Started => v.(state := Executing, shm := true)
    case CopyGoesOn => v.(state := CopyPending)
    case NoShm => v
    case StartError => v.(state := CouldntStart)
  }

  method Start(atp: ActiveTask, how: StartOutcome) returns (ok: bool)
    modifies atp`taskState, atp`hasShm
    ensures atp.View() == AfterStart(old(atp.View()), how)
    ensures ok <==> how.Started? || how.CopyGoesOn?
    ensures how.Started? ==> atp.taskState == Executing && atp.hasShm
    ensures how.CopyGoesOn? ==> atp.taskState == CopyPending && atp.hasShm == old(atp.hasShm)
    ensures how.NoShm? ==> atp.taskState == old(atp.taskState) && atp.hasShm == old(atp.hasShm)
    ensures how.StartError? ==> atp.taskState == CouldntStart && atp.hasShm == old(atp.hasShm)
  {
    match how {
      case Started => atp.taskState, atp.hasShm := Executing, true;
      case CopyGoesOn => atp.taskState := CopyPending;
      case NoShm => return false;
      case StartError =>
        atp.taskState := CouldntStart;
        return false;
    }
    return true;
  }

  function AfterResumeOrStart(v: TaskView, how: StartOutcome): TaskView {
    if v.state.Uninitialized? then AfterStart(v, how)
    else if v.state.Suspended? && v.shm then v.(state := Executing)
    else v
  }

  method ResumeOrStart(atp: ActiveTask, how: StartOutcome) returns (ok: bool)
    modifies atp`taskState, atp`hasShm
    ensures atp.View() == AfterResumeOrStart(old(atp.View()), how)
    ensures !ok <==> old(atp.taskState).Uninitialized? && (how.NoShm? || how.StartError?)
    ensures old(atp.taskState) != Executing ==>
              (atp.taskState == Executing <==>
               (old(atp.taskState) == Uninitialized && how.Started?) || (old(atp.taskState) == Suspended && atp.hasShm))
    ensures old(atp.taskState) !in {Uninitialized, Suspended} ==> atp.taskState == old(atp.taskState)
  {
    match atp.taskState {
      case Uninitialized => ok := Start(atp, how);
      case Suspended =>
        Unsuspend(atp);
        ok := true;
      case _ => ok := true;
    }
  }

  /** What a process exit looks like on Unix: a normal exit, by kind, or a signal. */
  datatype ExitKind =
    | TemporaryExit | ErrorExit | FinishedExit | PrematureExit(tooMany: bool)
    | KilledExternally | OtherSignal | UnknownExit

  function AfterExit(s: TaskState, how: ExitKind): TaskState {
    match s
    case AbortPending => Aborted
    case QuitPending => Uninitialized
    case _ =>
      match how
      case TemporaryExit => Uninitialized
      case ErrorExit => Exited
      case FinishedExit => Exited
      case PrematureExit(tooMany) => if tooMany then Aborted else Uninitialized
      case KilledExternally => Uninitialized
      case OtherSignal => WasSignaled
      case UnknownExit => ExitUnknown
  }

  /** `handle_exited_app`: a pending abort or quit decides, otherwise how the
      process ended does; the shared memory goes. */
  method HandleExitedApp(atp: ActiveTask, how: ExitKind)
    modifies atp`taskState, atp`hasShm
    ensures atp.View() == old(atp.View()).(state := AfterExit(old(atp.taskState), how), shm := false)
    ensures old(atp.taskState) == AbortPending ==> atp.taskState == Aborted
    ensures old(atp.taskState) == QuitPending ==> atp.taskState == Uninitialized
    ensures old(atp.taskState) !in {AbortPending, QuitPending} ==>
              && (atp.taskState == Exited <==> how.FinishedExit? || how.ErrorExit?)
              && (atp.taskState == Uninitialized <==>
                  how.TemporaryExit? || how.KilledExternally? || (how.PrematureExit? && !how.tooMany))
              && (atp.taskState == Aborted <==> how.PrematureExit? && how.tooMany)
              && (atp.taskState == WasSignaled <==> how.OtherSignal?)
              && (atp.taskState == ExitUnknown <==> how.UnknownExit?)
  {
    if atp.taskState == AbortPending {
      atp.taskState := Aborted;
    } else if atp.taskState == QuitPending {
      atp.taskState := Uninitialized;
    } else {
      match how {
        case TemporaryExit => atp.taskState := Uninitialized;
        case ErrorExit => atp.taskState := Exited;
        case FinishedExit => atp.taskState := Exited;
        case PrematureExit(tooMany) => atp.taskState := if tooMany then Aborted else Uninitialized;
        case KilledExternally => atp.taskState := Uninitialized;
        case OtherSignal => atp.taskState := WasSignaled;
        case UnknownExit => atp.taskState := ExitUnknown;
      }
    }
    atp.hasShm := false;
  }

  /** `abort_task`: ask a live process to abort, or mark the task aborted. */
  method AbortTask(atp: ActiveTask)
    modifies atp`taskState
    ensures atp.taskState == if old(atp.taskState) in {Executing, Suspended} then AbortPending else Aborted
  {
    if atp.taskState == Executing || atp.taskState == Suspended {
      atp.taskState := AbortPending;
    } else {
      atp.taskState := Aborted;
    }
  }
}
