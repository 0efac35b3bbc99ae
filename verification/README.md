# BOINC client scheduling, collection, messaging and graphics

This project models the parts of the BOINC client and API that decide what runs
and what may be deleted, and proves what they are for.

- **Scheduling** (`client/cpu_sched.cpp`). `GpuAssignment`, `Displacement`,
  `Admission`, `RunList`, `Picks` and `Fairness` hold the decisions on values;
  `Coprocs`, `Client`, `Scheduler`, `Enforcement`, `Selection`, `Candidates`,
  `Budget`, `Priorities` and `JobList` the code that makes them in place, proved
  against those. `TaskControl` and `ClientRuns` add the steps that change tasks
  between passes, and runs of all of them.
- **Garbage collection** (`client/client_state.cpp`). `ObjectGraph` says on values
  what a collection leaves, `CollectionLaws` what follows for repeated collections
  and for resetting a project, and `Collector` is the code on the lists.
- **Suspend and resume** (`client/app.cpp`, `client/app_control.cpp`,
  `api/boinc_api.cpp`). `MessageQueue` is the queue, the slot and the timeout,
  `ProcessControl` the protocol between client and application.
- **Graphics** (`api/reduce_main.cpp`, `api/graphics_data.cpp`). `Reduce` is the
  streaming reduction against its batch definition, `DoubleBuffer` the two threads
  sharing two buffers.

`ClientTypes` holds the records that all parts share, `Lists` erasing from a list
while scanning it, `Wrappers` optional values. Real numbers stand for floating
point, sequences for vectors, and a class has the fields that the source's class
has, as far as they matter here. A method whose body is split into turns and steps
follows the loop it is named after.

## Findings

Properties that comments or names in the source suggest and the code does not
have, each with an input and the exact condition.

| property | input | when it holds |
|---|---|---|
| GPU jobs leave the CPU load at most `ncpus + 1` (client/cpu_sched.cpp:1568-1570) | `Admission.GreedyGpuJob` | `Admission.LoadWithinIff` |
| New GPU jobs do not take the place of running ones (client/cpu_sched.cpp:1066-1067; the branches at 1175-1190 and 1262-1290 do) | `Displacement.RunningJobIsDisplaced` | `Displacement.RunningPrunedIff`, `ClientRuns.DisplacedWhenSafeIff` |
| Projects without a share come last (client/cpu_sched.cpp:638) | `Priorities.ZeroShareIsNotLowest` | `Priorities.ZeroShareIsLowestIff` |
| A resumed task's application goes on (api/boinc_api.cpp:945-951) | `ProcessControl.StaleSuspend` | `ProcessControl.FollowsIffNeverHarmful` |
| The 180-second timeout means a stuck message (client/app_control.cpp:633-634) | `MessageQueue.TimeoutOnNothing` | `MessageQueue.TimeoutMeansStuckIff` for the slot, `MessageQueue.NoneWaitsThatLongIff` for the queue |
| A stuck message leads to the timeout (client/app_control.cpp:633-634) | `MessageQueue.StuckUnnoticed` | `MessageQueue.StuckTimesOutIff` for the slot, `MessageQueue.WaitingTimesOutIff` for the queue |
| MIN and MAX give the extremes of a block (api/reduce.h:60-61) | `Reduce.MinOfOnes` | `Reduce.MinIsRightIff`, `Reduce.MaxIsRightIff` |
| Shown cycles never go back (api/graphics_data.h:26-30) | `DoubleBuffer.ShownGoesBack` | `DoubleBuffer.GoesBackIff` |

## Model

| member | source | states |
|---|---|---|
| GpuAssignment.NoInstanceOverused | client/cpu_sched.cpp:1331-1411 | After the assignment, the usage of every GPU instance is exactly what the kept jobs hold there, and at most 1, for any job list. |
| GpuAssignment.TurnedAwayIff | client/cpu_sched.cpp:1095-1309 | A job gets no instances exactly if, running, it conflicts on an instance it holds; fractional, no allowed instance has room; or whole, too few allowed instances are free. |
| GpuAssignment.PruningIsFinal | client/cpu_sched.cpp:1364-1411 | Every pruned job would be turned away again if offered at the end: nothing that fits is left out. |
| GpuAssignment.WholeInstances | client/cpu_sched.cpp:1204-1309 | A whole-instance job gets exactly as many distinct, allowed, free instances as it asks for whenever that many are free, and one that a running job claims only after all unclaimed ones. |
| GpuAssignment.FractionalInstance | client/cpu_sched.cpp:1135-1202 | A fractional job gets the first allowed instance that carries fractional load and has room for it, pending usage included, or, if there is none, the first allowed unused one. |
| GpuAssignment.FittingJobsStay | client/cpu_sched.cpp:1331-1411 | Running jobs that fit together are all kept where they are. |
| GpuAssignment.AssignmentIsStable | client/cpu_sched.cpp:1331-1411 | Once the kept jobs run, assigning any sublist of them in any order prunes none and moves none. |
| GpuAssignment.GrantFits | client/cpu_sched.cpp:1331-1411 | The jobs kept by a pass fit together once started. |
| Displacement.OvercommitsIff | client/cpu_sched.cpp:1135-1309 | A job that is not running is put where it and the running jobs do not fit together exactly if, fractional, no shared instance has room and the first free one is claimed; or, whole, unclaimed free instances are too few and free ones are enough. |
| Displacement.RunningPrunedIff | client/cpu_sched.cpp:1331-1411 | For every job list, the pass turns a running job away exactly if the running jobs do not fit together to begin with or some new job meets that guard when its turn comes. |
| Displacement.RunningJobIsDisplaced | client/cpu_sched.cpp:1175-1290 | Inputs, fractional and whole, for which a new job takes the only instance from the running job on it. |
| Coprocs.IncrementPendingUsage | client/cpu_sched.cpp:1072-1088 | Adds the job's share to the pending usage of the instances it holds, and nothing else. |
| Coprocs.CurrentAssignmentOk | client/cpu_sched.cpp:1095-1113 | Tells exactly whether the running job would be turned away. |
| Coprocs.ConfirmCurrentAssignment | client/cpu_sched.cpp:1115-1133 | Moves the job's share from pending usage to usage. |
| Coprocs.GetFractionalAssignment | client/cpu_sched.cpp:1135-1202 | Places the job as the assignment on values says, on an instance that it is not kept off and that has room, a shared one if there is any; or changes nothing and fails because no such instance has room. |
| Coprocs.GetIntegerAssignment | client/cpu_sched.cpp:1204-1309 | The two loops in place take the free instances in the order of the assignment on values, and never run out; they succeed exactly if enough instances that the job is not kept off are unused. |
| Client.ClientState.constructor | client/client_state.cpp:72-120 | A client without jobs is safe. |
| Client.ClientState.AssignCoprocs | client/cpu_sched.cpp:1331-1411 | The in-place pass over the run list leaves in list, instances and recorded indices exactly the outcome of the assignment on values. In the terms of the results: a GPU job that stays is recorded on as many different instances as it asks for, with its share of each, and none that it is kept off unless it was running; for one that is erased the final usage leaves no room; no instance is used beyond 1. |
| TaskControl.Preempt | client/app.cpp:140-188 | Quits or suspends the task: it quits exactly if always to be removed, or may be removed and is for a GPU or has checkpointed and may not stay in memory. |
| TaskControl.Suspend | client/app_control.cpp:1114-1131 | The task is suspended if its process can be told. |
| TaskControl.Unsuspend | client/app_control.cpp:1135-1156 | The task executes if its process can be told. |
| TaskControl.RequestExit | client/app_control.cpp:164-175 | The task is quitting. |
| TaskControl.ResumeOrStart | client/app_start.cpp:1068-1118 | New state by old state and outcome of the start; fails exactly if a new task cannot be started. |
| TaskControl.HandleExitedApp | client/app_control.cpp:363-541 | New state after a process exit on Unix: a pending abort or quit decides, then how the process ended, exactly which end for each final state. |
| TaskControl.AbortTask | client/app_control.cpp:804-814 | A live task is asked to abort, any other is marked aborted. |
| RunList.ImportanceIsStrictTotalOrder | client/cpu_sched.cpp:965-997 | The comparison given to the sort is irreflexive, asymmetric, transitive and total on distinct jobs. |
| RunList.SortedIsUnique | client/cpu_sched.cpp:1502-1506 | There is only one sorted arrangement, so the result does not depend on the sorting algorithm. |
| RunList.SortJobs | client/cpu_sched.cpp:965-997 | A permutation with jobs in deadline danger first, then GPU jobs, then those in the middle of their time slice, then those earlier in the run list. |
| RunList.PromoteMultiThreadJobs | client/cpu_sched.cpp:934-961 | The scan that restarts after each move terminates, and amounts to one stable partition of the jobs before its stopping point. |
| RunList.PromotionKeepsJobs | client/cpu_sched.cpp:934-961 | A permutation; multi-thread jobs keep their order, and so do the others. |
| RunList.PromotionStopsAtMiss | client/cpu_sched.cpp:929-961 | Nothing at or past a job in deadline danger moves. |
| RunList.PromotionStopsWhenFull | client/cpu_sched.cpp:934-961 | Nor does anything move that comes after jobs that use up the CPUs. |
| RunList.PromotionIsComplete | client/cpu_sched.cpp:927-961 | A multi-thread job stays behind another job only if a job in deadline danger is at or before it, or the CPUs ahead are used up. |
| Admission.LevelIsSum | client/cpu_sched.cpp:1564-1649 | CPUs and memory in use are exactly the sums over the admitted jobs. |
| Admission.CpuLoadIsBounded | client/cpu_sched.cpp:1568-1593 | The CPU load is at most `ncpus` and what one GPU job may ask for; `ncpus + 1` if no GPU job asks for more than one CPU. |
| Admission.LoadWithinIff | client/cpu_sched.cpp:1568-1593 | The load stays within `ncpus + 1` after every job exactly if no GPU job is offered while a CPU is left and asks for more than that. |
| Admission.StepOverstepsIff | client/cpu_sched.cpp:1572-1582 | One job takes the load past `ncpus + 1` exactly on that guard. |
| Admission.GreedyGpuJob | client/cpu_sched.cpp:1568-1582 | An input for which the load passes `ncpus + 1`, against the comment there. |
| Admission.MultiThreadIsNotOvercommitted | client/cpu_sched.cpp:1595-1609 | No CPU job is admitted past `ncpus` once a multi-thread job is in, nor a multi-thread job ever. |
| Admission.WorkingSetsFit | client/cpu_sched.cpp:1611-1629 | The admitted working sets fit the memory at entry. |
| Admission.SkippingIsFinal | client/cpu_sched.cpp:1564-1649 | Every skipped job would be skipped again at the end. |
| Admission.AdmittedIff | client/cpu_sched.cpp:1568-1629 | A job is admitted exactly if its working set fits what the admitted ones leave, and a CPU is left or, for a GPU job, the load stays within `ncpus + 1`; a CPU job that is multi-thread or next to one must also keep the load within `ncpus`. |
| Admission.NoCpuIsLeft | client/cpu_sched.cpp:1572-1609 | If a single-thread CPU job whose working set fits at the end was skipped and no multi-thread job is in, all CPUs are in use. |
| Scheduler.Fits | client/cpu_sched.cpp:1568-1629 | The tests of the loop body decide as the admission on values, by CPUs, multi-thread jobs and memory exactly, and mark a task too large exactly if memory is what it lacks. |
| Scheduler.AdmitJobs | client/cpu_sched.cpp:1564-1649 | The loop admits exactly the jobs that the admission on values admits in their turn, marks their tasks, creates missing ones, and leaves all others. |
| Scheduler.AdmissionIs | client/cpu_sched.cpp:1564-1649 | Exactly the jobs are admitted for which, in their turn, the CPUs and working sets of those admitted before leave room, by the fields of the jobs. |
| Scheduler.AppendUnfinishedTimeSlice | client/cpu_sched.cpp:1014-1031 | Appends each running job in the middle of its time slice that is not listed, once, in order of tasks. |
| Scheduler.AppendedFacts | client/cpu_sched.cpp:1014-1031 | The list stays free of duplicates, and what is appended is exactly those jobs. |
| Scheduler.ScheduleNonCpuIntensive | client/cpu_sched.cpp:1534-1541 | Every runnable job that is not CPU-intensive is to be scheduled, and its working set set aside. |
| Scheduler.RamIsSetAside | client/cpu_sched.cpp:1520-1545 | The smoothed working sets of the runnable non-CPU-intensive jobs are what is set aside. |
| Scheduler.GrantInstances | client/cpu_sched.cpp:1555-1558 | From a safe state the assignment can start, and its grants fit together. |
| Scheduler.Decide | client/cpu_sched.cpp:1534-1649 | What is to run: grants are the assignment of the offered jobs, admissions those of the kept ones with their CPUs and working sets, and tasks are marked accordingly. |
| Scheduler.PreemptTasks | client/cpu_sched.cpp:1665-1718 | Every task is preempted as its next state says; tells exactly whether a GPU task is quitting. |
| Scheduler.StartTasks | client/cpu_sched.cpp:1720-1797 | Tasks up to where the loop gives up are started or resumed; while a GPU task is quitting, no GPU task is. |
| Scheduler.GpuTaskTurns | client/cpu_sched.cpp:1665-1797 | Over both loops a GPU task executes only if scheduled, and, while one is quitting, only if it executed before. |
| Scheduler.PreemptedTaskEnds | client/cpu_sched.cpp:1671-1713 | A task to be preempted ends quitting exactly if it executes and is for a GPU, too large, or checkpointed and may not stay in memory, or is suspended, checkpointed and may not stay; otherwise suspended, if it can be told. |
| Scheduler.ScheduledTaskEnds | client/cpu_sched.cpp:1715-1797 | A task to be scheduled ends executing exactly if it did, or its turn came and it could start or resume, and it is not for a GPU while another GPU task is quitting. |
| Enforcement.EnforceRunList | client/cpu_sched.cpp:1459-1813 | A whole pass: the list is the only one sorting and promoting can give, of the run list and the jobs in the middle of their time slice, in the order of the fields it is sorted by; grants and admissions are those of the two value models, and admitted are exactly the jobs with room in their turn; every task ends as the two loops leave it; the state is safe; and if a GPU task is still to quit, no GPU task was started or resumed. |
| Selection.BestOfIsFirst | client/cpu_sched.cpp:367-515 | The first of the best entries: no other comes before it, and none before it is as good. |
| Selection.EarliestDeadlineResult | client/cpu_sched.cpp:453-515 | Returns a runnable unselected job of a project with deadline misses left, if there is any, that no other such job comes before: by deadline, then started, then remaining time. |
| Selection.FirstCoprocResult | client/cpu_sched.cpp:402-447 | Returns a runnable unselected GPU job of the type, if there is any, that no other comes before: by project priority, then started, then arrival. |
| Selection.LargestDebtProjectBestResult | client/cpu_sched.cpp:367-388 | Returns the candidate of a project that has no lower priority than any other with a candidate, and clears it there only. |
| Candidates.AssignResultsToProjects | client/cpu_sched.cpp:303-361 | Each project gets exactly the candidate of the two scans; the lookup of a candidate's task never yields NULL; candidates are marked as selected; a project without one has no unselected runnable CPU job that has no task or whose task may run; unselected results plus candidates do not grow. |
| Candidates.CandidateStands | client/cpu_sched.cpp:306-336 | A candidate keeps its place in the first scan until a task comes that has a process while the candidate's is uninitialized, or is scheduled while the candidate's is preempted, and only then. |
| Candidates.FirstOpenJob | client/cpu_sched.cpp:338-349 | The second scan's choice is the project's first runnable unselected CPU job without a task. |
| Budget.ProcResources.CanSchedule | client/cpu_sched.cpp:122-158 | Tells exactly whether memory, backoff, shared memory, an allowed instance where the usage stays within 1, or the CPUs admit the job. |
| Budget.ProcResources.ReserveCoprocs | client/cpu_sched.cpp:206-224 | The job's usage goes to the first instance that it is not kept off and where the sum stays within 1, or nothing changes. |
| Budget.WorkingSetIs | client/cpu_sched.cpp:176-182 | The working set a job is charged is the smoothed one of its task if it has one, and otherwise the largest of its version. |
| Budget.PlacedOnFirst | client/cpu_sched.cpp:206-224 | After a list the usage of the instances is what placing its jobs one by one on the first such instance leaves. |
| Budget.ProcResources.Reserve | client/cpu_sched.cpp:162-187 | Accounts stay the sums over the listed jobs, within all limits, usage is what placing the jobs in order leaves, and a full GPU type stays full. |
| Budget.StillRefused | client/cpu_sched.cpp:122-158 | A job that does not fit after some jobs does not fit after more of them, if CPUs and working sets are not negative. |
| Priorities.PriorityIsShareOfWork | client/cpu_sched.cpp:635-646 | Of two projects with shares, the one of higher priority has had less work for its share. |
| Priorities.ProjectPriorityInit | client/cpu_sched.cpp:599-633 | The sums are those of shares and of recent work over the competing projects, or 1 if there was no work; each of these projects has its recent work as work and its priority current. |
| Priorities.AdjustRecSched | client/cpu_sched.cpp:653-657 | The job's project is charged an hour at the job's part of all peak flops, no other is, and priorities stay current. |
| Priorities.WorkIsCharged | client/cpu_sched.cpp:653-657 | The work of a project is its recent work, and a 24th of all recent work times its listed jobs' part of all peak flops. |
| Priorities.SumsTakeIn | client/cpu_sched.cpp:599-616 | Exactly the projects that are not non-CPU-intensive or suspended and have a runnable job are in the sums. |
| Priorities.ZeroShareIsLowestIff | client/cpu_sched.cpp:635-646 | Exactly when a project without a share has lower priority than one with a share. |
| Priorities.ZeroShareIsNotLowest | client/cpu_sched.cpp:638-641 | An input for which it does not. |
| Fairness.LatestPickIsFair | client/cpu_sched.cpp:908-916 | If nothing of a project was listed after a pick of its own, it has no more work for its share than any project that had a candidate then, but for what that pick added. |
| Picks.UnlistedIsRefused | client/cpu_sched.cpp:790-816 | What was looked at but not listed does not fit after all that was listed, either. |
| Picks.ListedFits | client/cpu_sched.cpp:790-816 | Each listed job fits after those listed before it. |
| Picks.PickIsOfLeastServed | client/cpu_sched.cpp:367-388 | A pick by priority is of a project that, for its share, has had least work of all that have a candidate. |
| Picks.LoopsInOrder | client/cpu_sched.cpp:779-903 | The picks for GPU types come type by type in order and before those for the CPU; of one type those by deadline come before those by arrival. |
| Picks.PicksAreUnique | client/cpu_sched.cpp:779-918 | The client determines all loops: there is only one sequence of picks in which each is the first by the ranking of its loop, or the candidate of the first project, is listed exactly if it fits, and no loop ends before its resource is used up or nothing is left for it. |
| JobList.EdfTurn | client/cpu_sched.cpp:790-800 | A turn takes the job of earliest deadline, lists it exactly if it fits after the list so far, marks it, uses it up, and adds it to the picks. |
| JobList.AddEdfJobs | client/cpu_sched.cpp:886-903 | All picks are the right ones, listed exactly if they fit, and the list is theirs; the loop ends with the resource used up or no job in deadline danger left. |
| JobList.AddFifoJobs | client/cpu_sched.cpp:805-816 | The same in order of arrival; the loop ends with all instances full or no job left for them. |
| JobList.PriorityTurn | client/cpu_sched.cpp:908-916 | A turn picks the candidate of the project with least work for its share, lists it exactly if it fits, adds it to the picks with the projects that had a candidate, and uses up a result or a candidate. |
| JobList.AddByPriority | client/cpu_sched.cpp:908-916 | All picks are the right ones, listed exactly if they fit; a project had a candidate at one exactly if it was picked then or later or has one now; a selected result was picked, is a candidate or has a task; the loop ends with the CPUs used up or no candidate left. |
| JobList.MakeRunList | client/cpu_sched.cpp:820-918 | The list is what the right picks of all loops list, in order and each loop to its end; runnable results once each, within memory, multi-thread CPUs and GPU instances; the priorities are those after that list, relative to the sums of shares and recent work. |
| JobList.ListIsDetermined | client/cpu_sched.cpp:820-918 | It is the only list that such picks make for the state of the client. |
| JobList.EachJobFitted | client/cpu_sched.cpp:122-158 | Each job on the list fitted after those before it; a single-thread CPU job is there only if these left a CPU. |
| JobList.ListedIff | client/cpu_sched.cpp:122-158 | A job that was looked at is on the list exactly if, after those listed before it, it had its memory, was not backed off or waiting for shared memory, and an instance that it is not kept off had room, the sum within 1, or its CPUs were left. |
| JobList.UnlistedDoesNotFit | client/cpu_sched.cpp:790-816 | At the end no job fits that was picked but not listed. |
| JobList.NoRoomForUnlisted | client/cpu_sched.cpp:189-204 | A GPU job that was looked at but is off the list, though it is not backed off and has its memory, would at the end pass 1 on every instance that it is not kept off. |
| JobList.NothingPassedOver | client/cpu_sched.cpp:820-918 | A runnable job off the list does not fit, or its GPU type or the CPUs are used up, or it is a CPU job whose task is not to run or lost its place as candidate. |
| JobList.ListIsFair | client/cpu_sched.cpp:635-657 | Of a finished list: a project from which nothing was listed after a pick of its own has had no more work for its share than any project that was picked then or later or has a candidate left, but for what that pick added. |
| JobList.StillHasJobs | client/cpu_sched.cpp:908-916 | A project that has a job left at the end had a candidate at every pick by priority. |
| ClientRuns.SuspendAll | client/app_control.cpp:1014-1044 | Every task is suspended or spared as reason, preference and checkpoint say, and the state stays safe. |
| ClientRuns.SuspendedIff | client/app_control.cpp:1014-1044 | An executing task quits exactly if the reason is not the CPU and it is for a GPU or checkpointed and may not stay; it goes on exactly if the reason spares it or it cannot be told. |
| ClientRuns.OthersAreSpared | client/app_control.cpp:1014-1044 | A suspension leaves tasks that do not execute as they are, and of the others all but the task state. |
| ClientRuns.ResumedIff | client/app_control.cpp:1048-1064 | A task executes again exactly if it is scheduled, new or suspended, and can be started or told. |
| ClientRuns.UnsuspendAll | client/app_control.cpp:1048-1064 | Every scheduled suspended or new task goes on, and the state stays safe. |
| ClientRuns.ProcessExits | client/app_control.cpp:363-541 | A process exit at any time leaves the state safe. |
| ClientRuns.HandleFinishedApps | client/cs_apps.cpp:49-92 | Exactly the tasks that are over are erased, in place; tells whether there were any. |
| ClientRuns.InstancesNotOverused | client/cpu_sched.cpp:1331-1411 | In a safe state the scheduled GPU tasks use no instance beyond its capacity, and every executing GPU task is scheduled. |
| ClientRuns.InstancesAreShared | client/cpu_sched.cpp:1331-1411 | In a safe state two executing tasks are on the same instance only if both use a fraction of it and the fractions fit: an instance used whole is used alone. |
| ClientRuns.RunningFitWhenSafe | client/cpu_sched.cpp:1355-1371 | In a safe state the running jobs of any list fit together. |
| ClientRuns.DisplacedWhenSafeIff | client/cpu_sched.cpp:1331-1411 | So a pass turns a running GPU job away exactly if some new job meets the guard. |
| ClientRuns.ScheduleCpus | client/cpu_sched.cpp:709-738 | A pass when due keeps the state safe; if a GPU task is quitting afterwards, no GPU task was started or resumed; running jobs keep their recorded instances, and no GPU task is left suspended in memory by it. |
| ClientRuns.NewClient | client/client_state.cpp:72-120 | The first state is safe and consistent. |
| ClientRuns.Run | client/cpu_sched.cpp:709-738 | Over every run of passes, suspensions, resumptions, exits, aborts, clean-ups, and jobs that come and go, the state stays safe and consistent; no pass starts a GPU task while one is quitting; and only a pass that finds a suspended GPU task changes the instances of a live one. |
| ClientRuns.LiveTasksKeepInstances | client/client_state.cpp:785-806 | Over every run in which no pass is made while computation is suspended, a GPU task that executes or is suspended in memory keeps its instances. |
| ClientRuns.SuspendedJobMoves | client/cpu_sched.cpp:1364-1371 | Otherwise a pass can move it: an input. |
| ObjectGraph.UsedIsReachable | client/client_state.cpp:1279-1508 | The files that survive a collection are exactly those reachable from projects, surviving results, workunits and versions, and the sticky ones. |
| ObjectGraph.VersionStaysIff | client/client_state.cpp:1417-1452 | An application version stays exactly if a result that stays uses it, or none of its app, plan class and platform has a higher version number. |
| ObjectGraph.FileXferStaysIff | client/client_state.cpp:1471-1487 | A transfer in progress stays exactly if its file does. |
| ObjectGraph.TasksKeepTheirRecords | client/client_state.cpp:1312-1338 | The result, workunit and version of an active task survive, even if the result was acked. |
| ObjectGraph.CollectionIsSafe | client/check_state.cpp:92-176 | A collection keeps `check_all`: nothing left points at a deleted record. |
| CollectionLaws.CollectionIsIdempotent | client/client_state.cpp:1249-1515 | A second collection changes nothing. |
| CollectionLaws.CollectionIsLocal | client/client_state.cpp:1011-1148 | What a collection leaves of a project depends on that project's records alone. |
| CollectionLaws.ResetLeavesNothing | client/client_state.cpp:1738-1835 | A reset that drops applications leaves nothing of the project. |
| CollectionLaws.ResetSparesOthers | client/client_state.cpp:1738-1835 | For every other project a reset does exactly what one collection does. |
| Collector.SupersededNow | client/client_state.cpp:1425-1451 | Whether a version is superseded does not depend on which superseded ones have been erased. |
| Collector.CoveringNext | client/client_state.cpp:1425-1451 | Erasing a superseded version keeps that so. |
| Collector.ObjectStore.ScanResults | client/client_state.cpp:1308-1394 | The scan in place erases exactly the acked results without a task, aborts the tasks of the others, and counts what the rest refers to. |
| Collector.ObjectStore.ScanWorkunits | client/client_state.cpp:1399-1418 | Erases exactly the workunits without a reference and counts the files of the others. |
| Collector.ObjectStore.ScanAppVersions | client/client_state.cpp:1425-1451 | Erases exactly the unreferenced versions that are superseded in the original list. |
| Collector.ObjectStore.GarbageCollectAlways | client/client_state.cpp:1249-1515 | What is left is exactly what the graph says: results that are not acked or have a task, workunits they use, versions they use or that are newest, files that any of these, a project or stickiness holds, and the transfers of these files; it satisfies `check_all`; every reference count is exact; the result tells whether anything was deleted. |
| Collector.ObjectStore.GarbageCollectTwice | client/client_state.cpp:1249-1515 | A second collection deletes nothing and returns false. |
| Collector.ObjectStore.AbortProject | client/app_control.cpp:992-1008 | Exactly the project's tasks are erased. |
| Collector.ObjectStore.ResetProject | client/client_state.cpp:1738-1835 | The steps in place are exactly the reset of the graph, and `check_all` holds afterwards. No result, workunit, task or transfer of the project is left, and no application, version or file unless the project is anonymous and not being detached; then its applications stay, with those of its versions that no version of the same application, class and platform is newer than. |
| CollectionLaws.ResetKeepsNewest | client/client_state.cpp:1816-1832 | A reset that keeps applications leaves of the project only these and a version exactly if none of the same application, class and platform has a greater number. |
| MessageQueue.MsgQueue.Send | client/app.cpp:790-807 | Straight into the slot if nothing waits and the slot is free, else to the end of the queue, noting the time if none is noted. |
| MessageQueue.MsgQueue.Poll | client/app.cpp:809-833 | The first waiting message goes into a free slot and the noted time is cleared. |
| MessageQueue.MsgQueue.Purge | client/app.cpp:837-856 | Takes back the last waiting message if it is the given one, leaving the noted time. |
| MessageQueue.TimeoutIff | client/app.cpp:858-864 | The timeout strikes exactly if a message was left in the queue longer ago than the limit and none has gone into the slot since. |
| MessageQueue.EmptyInDefaultIff | client/app.cpp:837-864 | A time is noted with nothing waiting exactly if the queue was emptied by taking its last message back. |
| MessageQueue.UntimedIff | client/app.cpp:809-833 | A message waits with no time noted exactly if the queue has only shrunk since a poll. |
| MessageQueue.WaitingIff | client/app.cpp:790-856 | The message whose time is noted still waits exactly if it has not been taken back. |
| MessageQueue.HeadIff | client/app.cpp:790-864 | The noted time is that of the message at the head exactly if that message found the queue empty and has not been taken back. |
| MessageQueue.TimeoutMeansStuckIff | client/app_control.cpp:633-642 | When the timeout strikes, the application has had the same message in its slot all that time exactly if the slot is full. |
| MessageQueue.NoneWaitsThatLongIff | client/app.cpp:837-864 | When the timeout strikes, no message has waited in the queue that long exactly if its last message was taken back and nothing has been left in it that long since. |
| MessageQueue.StuckTimesOutIff | client/app.cpp:790-864 | A message that is not taken out of the slot leads to the timeout exactly if some message was left in the queue behind it longer ago than the limit. |
| MessageQueue.WaitingTimesOutIff | client/app.cpp:790-864 | A message that has waited in the queue longer than the limit leads to the timeout exactly if none has gone into the slot since it was left there, or a later one was left that long ago and none has gone in since. |
| MessageQueue.TimeoutOnNothing | client/app_control.cpp:633-642 | A run in which the timeout strikes with nothing in the slot and nothing waiting. |
| MessageQueue.StuckUnnoticed | client/app_control.cpp:633-642 | A run in which a message is never taken, another waits behind it, and the timeout never strikes. |
| ProcessControl.NothingInTransit | client/app_control.cpp:1114-1156 | The client's own suspends and resumes make the first of these runs. |
| ProcessControl.SuspendInSlot | client/app_control.cpp:1114-1131 | And the second. |
| ProcessControl.FirstInFirstOut | client/app.cpp:790-856 | On every run the messages sent, less those taken back, are those read, then the slot, then the queue. |
| ProcessControl.CoherentOverRuns | client/app_control.cpp:1114-1156 | On every run two suspend or resume messages are never adjacent in the queue, and its end tells what the task is. |
| ProcessControl.TogglingWaitsOnce | client/app_control.cpp:1114-1156 | Toggling alone never makes the queue longer than one. |
| ProcessControl.TogglesAreFew | client/app_control.cpp:1114-1156 | There is at most one more toggle waiting than there are other messages. |
| ProcessControl.FollowsStep | api/boinc_api.cpp:921-998 | A step of a live task loses the agreement between client and application exactly if a resume is read while a suspend is put off, and no toggle waits that cannot be taken back. |
| ProcessControl.FollowsIffNeverHarmful | api/boinc_api.cpp:921-998 | On every run of a live task the agreement holds all along exactly if there is no such read. |
| ProcessControl.HarmfulReadDisagrees | api/boinc_api.cpp:945-951 | After such a read, client and application disagree at once or when the client takes its last message back. |
| ProcessControl.AppFollowsClient | api/boinc_api.cpp:921-998 | If suspends are read outside critical sections, none is put off, and what is on its way always brings the application to what the client thinks it is. |
| ProcessControl.StaleSuspend | api/boinc_api.cpp:945-996 | A run after which the client has resumed the task, nothing is on its way, and the application is suspended. |
| ProcessControl.ExitsIff | api/boinc_api.cpp:921-998 | The application exits exactly when its timer finds it outside critical sections and a quit or an abort has come: inside it is put off. |
| ProcessControl.SuspendsIff | api/boinc_api.cpp:921-998 | It becomes suspended exactly when its timer finds it outside critical sections and a suspend has come, unless it exits. |
| ProcessControl.FlagsAreReads | api/boinc_api.cpp:955-984 | Over every run, the quit, abort, network and reread flags are set exactly if such a message has been read. |
| ProcessControl.Application.HandleProcessControlMsg | api/boinc_api.cpp:921-998 | Takes the message in the slot and acts on it and on what was put off, as the model on values. |
| ProcessControl.Application.EndCriticalSection | api/boinc_api.cpp:1386-1395 | Leaves one critical section, never below none. |
| ProcessControl.Session.Suspend | client/app_control.cpp:1114-1131 | Takes a waiting resume back or sends a suspend; the task is suspended. |
| ProcessControl.Session.Unsuspend | client/app_control.cpp:1135-1156 | Takes a waiting suspend back or sends a resume; the task executes. |
| ProcessControl.Session.ProcessControlPoll | client/app_control.cpp:624-649 | Restarts exactly on timeout, else polls. |
| Reduce.BlockSteps | api/reduce_main.cpp:86-142 | Blocks come in order, none is skipped, and the last position falls into the last one: every index stays in bounds. |
| Reduce.CellIsMeanOrSum | api/reduce_main.cpp:80-108 | A reduced column is the mean or the sum over its block of columns; block `b` of `r` is the slice of the row from `b * n / r`, rounded up, to where the next one begins. |
| Reduce.BatchIsMean | api/reduce_main.cpp:122-188 | A finished cell is the mean of its reduced column over its block of source rows, again such a slice. |
| Reduce.MinIsRightIff | api/reduce_main.cpp:95-97 | The MIN method gives the least element of a block exactly if the block has one that is at most 0. |
| Reduce.MaxIsRightIff | api/reduce_main.cpp:98-100 | The MAX method gives the greatest element of a block exactly if the block has one that is at least 0. |
| Reduce.MinOfOnes | api/reduce_main.cpp:83-97 | A block of ones for which MIN gives 0. |
| Reduce.ReducedArray.InitData | api/reduce_main.cpp:44-61 | The limits of 256 and 128 already keep the array within its buffer, so halving never happens. |
| Reduce.ReducedArray.ReduceSourceRow | api/reduce_main.cpp:80-108 | The row is reduced into its place and nothing else is touched. |
| Reduce.ReducedArray.UpdateMax | api/reduce_main.cpp:110-118 | The extremes cover one more row, and are among the cells or what they started from. |
| Reduce.ReducedArray.AddSourceRow | api/reduce_main.cpp:122-188 | After each call the finished rows are what the batch definition says, the row under way holds sums, and the counters agree; a call too many changes nothing. |
| Reduce.ReducedArray.FullWhenAllIn | api/reduce_main.cpp:63-65 | `full` holds exactly when all source rows are in. |
| Reduce.ReduceAll | api/reduce.h:24-32 | Streaming all rows gives the batch definition in every row: every cell is the mean, over a slice of the source rows, of the reduced column. |
| DoubleBuffer.GraphicsDoubleBuffer.GetRenderBuffer | api/graphics_data.cpp:38-58 | Goes on with a buffer being rendered; leaves a rendered one, which becomes idle, for a generated one; else shows the rendered or the first generated one; fails exactly if there is none. |
| DoubleBuffer.GraphicsDoubleBuffer.GetGenerateBuffer | api/graphics_data.cpp:64-75 | Buffer and states are those of the call on values. |
| DoubleBuffer.RenderCallIsSteps | api/graphics_data.cpp:32-58 | Without interruption the single reads and writes of the call amount to the call. |
| DoubleBuffer.GenerateCallIsSteps | api/graphics_data.cpp:64-75 | The same for the generating side. |
| DoubleBuffer.NeverTheSameBuffer | api/graphics_data.h:45-46 | Under every interleaving of single reads and writes the two threads never hold the same buffer, and only complete cycles are shown. |
| DoubleBuffer.ShownDataIsStable | api/graphics_data.h:45-46 | No step of the science thread changes a buffer that the GUI thread holds. |
| DoubleBuffer.ShownInOrderIff | api/graphics_data.cpp:38-58 | On every run the cycles shown never go back exactly if the first buffer was shown first or only one cycle was shown. |
| DoubleBuffer.GoesBackIff | api/graphics_data.cpp:38-58 | A run can still go back, without a wrong pick to come, exactly if it has made one: read the second buffer as the first generated one, with nothing shown before. |
| DoubleBuffer.AtomicCallsKeepOrder | api/graphics_data.h:26-30 | With atomic calls, and even with less, the cycles shown never go back. |
| DoubleBuffer.ShownGoesBack | api/graphics_data.cpp:38-58 | A run in which they do. |

## Left out

- Fixed-size arrays `usage`, `pending_usage` and `coproc_indices` are sequence fields of the same length, so aliasing between them is not captured.
- A GPU job for more than 8 instances: `coproc_indices` has room for 8 (client/result.h:176), and writing past it is not modelled; `ClientRuns.Acceptable` keeps such jobs out.
- GPU usage that is neither a fraction of one instance nor a whole number of them, which the source rules out (client/cpu_sched.cpp:1037).
- GPU exclusion by configuration is a constant set of each job; GPU memory (`DEFER_ON_GPU_AVAIL_RAM`) is off, as in the source.
- The GPU usability check at the start of a pass, the swap-space check, which is marked as broken (client/cpu_sched.cpp:1663), and requests for work or for another pass.
- The bookkeeping of backed-off GPU jobs (`schedule_backoff`, `rsc_defer_sched`): whether a job is backed off is an input.
- Round-robin simulation, recent work, promotion of jobs that once ran by deadline, and the largest working set of an application version are inputs of a pass.
- TaskControl.RequestExit: sets the task state only; the quit message is part of `ProcessControl` (`ClientQuits`), and the quit timer and the list of descendants serve to kill the process.
- Process creation and killing, shared memory, signals and slot directories: how a start ends, and how a process exits, are inputs; a pending file copy only sets the task state, and its completion, which starts a task without looking at its state, is not modelled.
- `std::sort` stands as an insertion sort; its result is the only one possible.
- Reporting of download and upload failures during a collection (client/client_state.cpp:1340-1390), and references from an automatic update.
- `FILE_INFO::result` in `check_file_info`: nothing assigns it, so its check says nothing.
- Scheduler and HTTP operations that a project reset aborts, and the numeric project fields it resets.
- Waiting for and killing the processes of a project that is being reset: its tasks are erased.
- The process that is restarted after a message timeout: the session ends there.
- Suspending the activities of the worker thread inside the application: only the flags are modelled.
- Int and float widths: overflow of a row or column index times a width, and rounding of sums and means, are not captured.
- The assertion in `add_source_row` against too many calls: such a call returns, as in a build without assertions.
- Drawing the reduced array, clearing a graphics buffer (an empty virtual function), and memory ordering weaker than one read or write at a time.
- Windows and Mac branches, `SIM` code, logging, XML, RPC and the account manager.
