/** `make_run_list` (client/cpu_sched.cpp:743-920): the list of jobs
    to run, by deadline, by arrival on GPUs, and by project priority. */
module JobList {
  import opened Lists
  import opened ClientTypes
  import opened Client
  import opened Scheduler
  import opened Selection
  import opened Candidates
  import opened Budget
  import opened Priorities
  import opened Fairness
  import opened Picks

  // ---- taking a job into the list ---------------------------------------

  /** The list so far: runnable results, each once, that are marked as selected. */
  ghost predicate ListOk(c: ClientState, env: Env, list: seq<Result>)
    reads c`results, list`alreadySelected
  {
    && Distinct(list)
    && forall r :: r in list ==> r in c.results && r in env.runnable && !r.project.nonCpuIntensive && r.alreadySelected
  }

  /** What every step of the selection keeps. */
  ghost predicate Selecting(c: ClientState, pr: ProcResources, env: Env, f: Forecast, s: Sums, list: seq<Result>)
    reads c`tasks, c`results, c`projects, list`alreadySelected, pr
    reads c.projects`resourceShareFrac, c.projects`recTemp, c.projects`schedPriority
  {
    && Consistent(c) && RunnableOk(c, env) && s == SumsOf(c, env, f) && PrioritiesOk(c, env, f, s, list)
    && ListOk(c, env, list) && pr.Accounts(c, list, env)
  }

  /** List a job that fits. */
  method ListJob(c: ClientState, pr: ProcResources, env: Env, f: Forecast, s: Sums, list: seq<Result>, rp: Result,
                 atp: ActiveTask?)
    requires Selecting(c, pr, env, f, s, list) && rp in c.results && rp in env.runnable && rp.alreadySelected
             && rp !in list
    requires !rp.project.nonCpuIntensive && pr.Admits(c, rp, env, f)
    requires if atp == null then forall t :: t in c.tasks ==> t.result != rp else atp in c.tasks && atp.result == rp
    modifies pr, rp.project`recTemp, rp.project`schedPriority
    ensures Selecting(c, pr, env, f, s, list + [rp])
  {
    pr.Reserve(c, rp, atp, env, f, list);
    AdjustRecSched(c, rp, env, f, s, list);
  }

  lemma SelectingKnows(c: ClientState, pr: ProcResources, env: Env, f: Forecast, s: Sums, list: seq<Result>, r: Result)
    requires Selecting(c, pr, env, f, s, list)
    ensures OneTaskPerResult(c.tasks) && |pr.usage| == |c.coprocs|
    ensures pr.StopScanCpu() <==> StCpus(list) >= env.ncpus as real
    ensures r in c.results ==>
              r.rscType < |pr.usage| && r.project in c.projects && (r.project.nonCpuIntensive ==> r.nonCpuIntensive)
              && (pr.Admits(c, r, env, f) <==> AdmitsAfter(c, list, r, env, f))
  {
    hide RowsAfter, StCpus, MtCpus, TotalWss, CostOf, PrioritiesOk, ListOk, RunnableOk, AdmitsAfter,
         ProcResources.Admits;
    if r in c.results {
      pr.AdmitsIs(c, list, r, env, f);
    }
  }

  /** The job's task, if it has one, and whether the job fits. */
  method JobFits(c: ClientState, pr: ProcResources, env: Env, f: Forecast, rp: Result)
      returns (atp: ActiveTask?, ok: bool)
    requires rp.rscType < |pr.usage| && OneTaskPerResult(c.tasks)
    ensures if atp == null then forall t :: t in c.tasks ==> t.result != rp else atp in c.tasks && atp.result == rp
    ensures ok == pr.Admits(c, rp, env, f)
  {
    atp := c.LookupActiveTaskByResult(rp);
    ok := pr.CanSchedule(c, rp, atp, env, f);
  }

  /** List a job if it fits. */
  method TakeJob(c: ClientState, pr: ProcResources, env: Env, f: Forecast, s: Sums, list: seq<Result>, rp: Result)
      returns (list': seq<Result>)
    requires Selecting(c, pr, env, f, s, list) && rp in c.results && rp in env.runnable && rp.alreadySelected
             && rp !in list
    requires !rp.project.nonCpuIntensive
    modifies pr, rp.project`recTemp, rp.project`schedPriority
    ensures Selecting(c, pr, env, f, s, list')
    ensures list' == if AdmitsAfter(c, list, rp, env, f) then list + [rp] else list
  {
    hide *;
    SelectingKnows(c, pr, env, f, s, list, rp);
    var atp, ok := JobFits(c, pr, env, f, rp);
    if !ok { return list; }
    ListJob(c, pr, env, f, s, list, rp, atp);
    list' := list + [rp];
  }

  // ---- jobs that would miss their deadline, and GPU jobs ----------------

  /** Select a job: it will not be considered again. */
  method SelectJob(c: ClientState, pr: ProcResources, env: Env, f: Forecast, s: Sums, list: seq<Result>, rp: Result)
    requires Selecting(c, pr, env, f, s, list) && rp in c.results && !rp.alreadySelected
    modifies rp`alreadySelected
    ensures Selecting(c, pr, env, f, s, list) && rp.alreadySelected && rp !in list
    ensures Unselected(c) == old(Unselected(c)) - {rp} && |Unselected(c)| < old(|Unselected(c)|)
  {
    ghost var was := Unselected(c);
    rp.alreadySelected := true;
    assert Unselected(c) == was - {rp};
  }

  /** Select a job and list it if it fits. */
  method SelectAndTake(c: ClientState, pr: ProcResources, env: Env, f: Forecast, s: Sums, list: seq<Result>, rp: Result)
      returns (list': seq<Result>)
    requires Selecting(c, pr, env, f, s, list)
    requires rp in c.results && rp in env.runnable && !rp.alreadySelected && !rp.nonCpuIntensive
    modifies pr, rp`alreadySelected, rp.project`recTemp, rp.project`schedPriority
    ensures Selecting(c, pr, env, f, s, list')
    ensures list' == if AdmitsAfter(c, list, rp, env, f) then list + [rp] else list
    ensures Unselected(c) == old(Unselected(c)) - {rp} && |Unselected(c)| < old(|Unselected(c)|)
  {
    hide *;
    SelectingKnows(c, pr, env, f, s, list, rp);
    SelectJob(c, pr, env, f, s, list, rp);
    list' := TakeJob(c, pr, env, f, s, list, rp);
  }

  /** A CPU job on the list is marked as EDF-scheduled, and no job off the list is. */
  ghost predicate EdfMarks(c: ClientState, list: seq<Result>)
    reads c`results, c.results`edfScheduled, list`edfScheduled
  {
    && (forall r :: r in c.results && r.edfScheduled ==> r in list)
    && (forall r :: r in list ==> r.UsesCoprocs() || r.edfScheduled)
  }

  /** A listed EDF job leaves one deadline miss less for its project. */
  method CountMiss(c: ClientState, pr: ProcResources, env: Env, f: Forecast, s: Sums, list: seq<Result>, rp: Result)
    requires Selecting(c, pr, env, f, s, list + [rp])
    modifies rp.project`deadlinesMissedCopy, rp`edfScheduled
    ensures Selecting(c, pr, env, f, s, list + [rp])
    ensures rp.edfScheduled && (old(EdfMarks(c, list)) ==> EdfMarks(c, list + [rp]))
    ensures forall t: nat ::
              rp.project.deadlinesMissedCopy(t) == old(rp.project.deadlinesMissedCopy)(t)
                - if t == rp.rscType then 1 else 0
  {
    var was := rp.project.deadlinesMissedCopy;
    rp.project.deadlinesMissedCopy := (t: nat) => if t == rp.rscType then was(t) - 1 else was(t);
    rp.edfScheduled := true;
  }

  method SelectAndTakeEdf(c: ClientState, pr: ProcResources, env: Env, f: Forecast, s: Sums, list: seq<Result>,
                          rp: Result)
      returns (list': seq<Result>)
    requires Selecting(c, pr, env, f, s, list)
    requires rp in c.results && rp in env.runnable && !rp.alreadySelected && !rp.nonCpuIntensive
    modifies pr, rp`alreadySelected, rp.project`recTemp, rp.project`schedPriority, rp.project`deadlinesMissedCopy,
             rp`edfScheduled
    ensures Selecting(c, pr, env, f, s, list')
    ensures list' == if AdmitsAfter(c, list, rp, env, f) then list + [rp] else list
    ensures Unselected(c) == old(Unselected(c)) - {rp} && |Unselected(c)| < old(|Unselected(c)|)
    ensures old(EdfMarks(c, list)) ==> EdfMarks(c, list')
    ensures rp.edfScheduled == (list' != list || old(rp.edfScheduled))
    ensures forall t: nat :: rp.project.deadlinesMissedCopy(t) ==
              old(rp.project.deadlinesMissedCopy)(t) - if list' != list && t == rp.rscType then 1 else 0
  {
    hide *;
    list' := SelectAndTake(c, pr, env, f, s, list, rp);
    if |list'| > |list| {
      CountMiss(c, pr, env, f, s, list, rp);
    }
  }

  // ---- the picks of these loops -----------------------------------------

  /** The results that no pick has looked at. */
  ghost function LeftOver(c: ClientState, picks: seq<Pick>): set<Result>
    reads c`results
  {
    set r | r in c.results && r !in JobsOf(picks)
  }

  /** The misses that are left are those that no listed pick has dealt with. */
  ghost predicate MissesLeft(c: ClientState, f: Forecast, picks: seq<Pick>)
    reads c`projects, c.projects`deadlinesMissedCopy
  {
    forall p, t: nat :: p in c.projects ==> p.deadlinesMissedCopy(t) == f.deadlinesMissed(p)(t) - Dealt(picks, p, t)
  }

  ghost predicate NotStartedOk(c: ClientState, f: Forecast)
    reads c`tasks, c`results, c.results`notStarted
  {
    forall r :: r in c.results ==> r.notStarted == (!HasTask(c.tasks, r) && !f.computingDone(r))
  }

  /** The list is what right picks, made loop by loop, have listed. */
  ghost predicate Audited(c: ClientState, env: Env, f: Forecast, s: Sums, list: seq<Result>, picks: seq<Pick>)
    reads c, c.tasks`hasShm
  {
    list == ListedOf(picks) && RightPicks(c, env, f, s, picks) && InOrder(|c.coprocs|, picks)
  }

  /** The state of the loops for GPU jobs and by deadline. */
  ghost predicate Early(c: ClientState, pr: ProcResources, env: Env, f: Forecast, s: Sums, list: seq<Result>,
                        picks: seq<Pick>)
    reads c, c.tasks`hasShm, pr, c.projects`resourceShareFrac, c.projects`recTemp, c.projects`schedPriority
    reads c.projects`deadlinesMissedCopy, c.results`alreadySelected, c.results`notStarted, c.results`edfScheduled
    reads list`alreadySelected, list`edfScheduled
  {
    && Selecting(c, pr, env, f, s, list) && Audited(c, env, f, s, list, picks) && EdfMarks(c, list)
    && Unselected(c) == LeftOver(c, picks) && MissesLeft(c, f, picks) && NotStartedOk(c, f)
  }

  /** While the picks of one loop are made, the loops before it are over. */
  ghost predicate InLoop(c: ClientState, env: Env, f: Forecast, s: Sums, picks: seq<Pick>, loop: nat)
    reads c
  {
    2 <= loop && UpTo(|c.coprocs|, picks, loop) && AllEnded(c, env, f, s, picks, loop)
  }

  lemma EarlySelection(c: ClientState, pr: ProcResources, env: Env, f: Forecast, s: Sums, list: seq<Result>,
                       picks: seq<Pick>)
    requires Early(c, pr, env, f, s, list, picks)
    ensures Selecting(c, pr, env, f, s, list)
    ensures forall r :: r in c.results ==> (r.alreadySelected <==> r in JobsOf(picks))
  {
    forall r | r in c.results ensures r.alreadySelected <==> r in JobsOf(picks) {
      assert r in Unselected(c) <==> r in LeftOver(c, picks);
    }
  }

  /** The next pick of a loop. */
  lemma EarlyNext(c: ClientState, pr: ProcResources, env: Env, f: Forecast, s: Sums, list: seq<Result>,
                  picks: seq<Pick>, pick: Pick, list': seq<Result>, loop: nat)
    requires Audited(c, env, f, s, list, picks) && InLoop(c, env, f, s, picks, loop)
             && RightPick(c, env, f, s, picks, pick)
    requires LoopOf(|c.coprocs|, pick.how) == loop && list' == if pick.listed then list + [pick.job] else list
    requires Selecting(c, pr, env, f, s, list') && EdfMarks(c, list') && NotStartedOk(c, f)
    requires Unselected(c) == LeftOver(c, picks) - {pick.job} && MissesLeft(c, f, picks + [pick])
    ensures Early(c, pr, env, f, s, list', picks + [pick]) && InLoop(c, env, f, s, picks + [pick], loop)
  {
    hide Selecting, EdfMarks, RightPick, RightPicks, MissesLeft, NotStartedOk, AllEnded, UpTo, InOrder;
    RightNext(c, env, f, s, picks, pick);
    OrderNext(|c.coprocs|, picks, pick, loop);
    EndedNext(c, env, f, s, picks, pick, loop);
    JobsNext(picks, pick);
    assert LeftOver(c, picks + [pick]) == LeftOver(c, picks) - {pick.job};
  }

  // ---- by deadline ------------------------------------------------------

  /** The eligible job of earliest deadline, if there is one. */
  method PickEdf(c: ClientState, env: Env, f: Forecast, rt: nat) returns (rp: Result?, ghost at: int)
    requires OneTaskPerResult(c.tasks)
    ensures at == EarliestDeadline(c, rt, env, f) && rp == if at < 0 then null else c.results[at]
    ensures FirstBest(EdfEntries(c, rt, env, f, |c.results|), |c.results|, at)
    ensures rp != null ==> rp in c.results && EdfEligible(rp, rt, env, f)
  {
    ghost var entries := EdfEntries(c, rt, env, f, |c.results|);
    EdfEntriesAt(c, rt, env, f, |c.results|);
    BestOfIsFirst(entries, |c.results|);
    rp, at := EarliestDeadlineResult(c, rt, env, f);
  }

  /** What the loop looks at is what the picks leave. */
  lemma EdfEntriesAre(c: ClientState, env: Env, f: Forecast, s: Sums, picks: seq<Pick>, rt: nat)
    requires Consistent(c) && MissesLeft(c, f, picks)
    requires forall r :: r in c.results ==> (r.alreadySelected <==> r in JobsOf(picks))
    ensures EdfEntries(c, rt, env, f, |c.results|) == JobEntries(c, Deadline(rt), env, f, s, picks)
  {
    EdfEntriesAt(c, rt, env, f, |c.results|);
    forall k | 0 <= k < |c.results|
      ensures EdfEntry(c, c.results[k], rt, env, f) == DeadlineEntry(c, c.results[k], rt, env, f, picks)
    {
      assert c.results[k] in c.results && c.results[k].project in c.projects;
    }
  }

  lemma EdfLoop(c: ClientState, pr: ProcResources, env: Env, f: Forecast, s: Sums, list: seq<Result>, picks: seq<Pick>,
                rt: nat)
    requires Early(c, pr, env, f, s, list, picks)
    ensures EdfEntries(c, rt, env, f, |c.results|) == JobEntries(c, Deadline(rt), env, f, s, picks)
    ensures OneTaskPerResult(c.tasks)
  {
    hide Audited, EdfMarks, PrioritiesOk, ListOk, ProcResources.Accounts, MissesLeft, EdfEntries, JobEntries;
    EarlySelection(c, pr, env, f, s, list, picks);
    EdfEntriesAre(c, env, f, s, picks, rt);
  }

  lemma EdfPickIsFirst(c: ClientState, env: Env, f: Forecast, s: Sums, picks: seq<Pick>, rt: nat, at: int)
    requires -1 <= at < |c.results|
    requires FirstBest(JobEntries(c, Deadline(rt), env, f, s, picks), |c.results|, at)
    ensures if at < 0 then Over(c, env, f, s, picks, Deadline(rt))
            else IsFirst(c.results, JobEntries(c, Deadline(rt), env, f, s, picks), c.results[at])
  {
  }

  lemma SelectingOk(c: ClientState, pr: ProcResources, env: Env, f: Forecast, s: Sums, list: seq<Result>)
    requires Selecting(c, pr, env, f, s, list)
    ensures OneTaskPerResult(c.tasks) && |pr.usage| == |c.coprocs| && pr.ncpus == env.ncpus
    ensures pr.ncpusUsedSt == StCpus(list) && pr.usage == RowsAfter(c, list)
  {
  }

  lemma EarlyKnows(c: ClientState, pr: ProcResources, env: Env, f: Forecast, s: Sums, list: seq<Result>,
                   picks: seq<Pick>)
    requires Early(c, pr, env, f, s, list, picks)
    ensures Selecting(c, pr, env, f, s, list) && list == ListedOf(picks)
  {
  }

  lemma StopIsOver(c: ClientState, env: Env, f: Forecast, s: Sums, list: seq<Result>, picks: seq<Pick>, how: How)
    ensures list == ListedOf(picks) && !GoesOn(c, list, how, env) ==> Over(c, env, f, s, picks, how)
  {
  }

  lemma EdfPickIsRight(c: ClientState, pr: ProcResources, env: Env, f: Forecast, s: Sums, list: seq<Result>,
                       picks: seq<Pick>, rt: nat, rp: Result)
    requires Early(c, pr, env, f, s, list, picks) && GoesOn(c, list, Deadline(rt), env)
    requires rp in c.results && EdfEligible(rp, rt, env, f)
    requires IsFirst(c.results, JobEntries(c, Deadline(rt), env, f, s, picks), rp)
    ensures RightPick(c, env, f, s, picks, Pick(rp, AdmitsAfter(c, list, rp, env, f), Deadline(rt)))
    ensures rp.rscType == rt && rp in env.runnable && !rp.alreadySelected && !rp.nonCpuIntensive
            && rp.project in c.projects
  {
    hide JobEntries, IsFirst, GoesOn, AdmitsAfter;
    EarlySelection(c, pr, env, f, s, list, picks);
    SelectingKnows(c, pr, env, f, s, list, rp);
  }

  method TakeEdf(c: ClientState, pr: ProcResources, env: Env, f: Forecast, s: Sums, list: seq<Result>, rp: Result,
                 rt: nat, ghost picks: seq<Pick>)
      returns (list': seq<Result>, ghost picks': seq<Pick>)
    requires Early(c, pr, env, f, s, list, picks) && InLoop(c, env, f, s, picks, LoopOf(|c.coprocs|, Deadline(rt)))
    requires RightPick(c, env, f, s, picks, Pick(rp, AdmitsAfter(c, list, rp, env, f), Deadline(rt)))
    requires rp.rscType == rt && rp in env.runnable && !rp.alreadySelected && !rp.nonCpuIntensive
    requires rp in c.results && rp.project in c.projects
    modifies pr, c.results`alreadySelected, c.results`edfScheduled
    modifies c.projects`recTemp, c.projects`schedPriority, c.projects`deadlinesMissedCopy
    ensures Early(c, pr, env, f, s, list', picks') && InLoop(c, env, f, s, picks', LoopOf(|c.coprocs|, Deadline(rt)))
    ensures list' == if AdmitsAfter(c, list, rp, env, f) then list + [rp] else list
    ensures picks' == picks + [Pick(rp, AdmitsAfter(c, list, rp, env, f), Deadline(rt))]
    ensures rp.edfScheduled == (list' != list || old(rp.edfScheduled)) && |Unselected(c)| < old(|Unselected(c)|)
  {
    hide RightPick, AdmitsAfter, Selecting, EdfMarks, NotStartedOk, InLoop, Audited, Unselected, LeftOver, Dealt;
    ghost var pick := Pick(rp, AdmitsAfter(c, list, rp, env, f), Deadline(rt));
    list' := SelectAndTakeEdf(c, pr, env, f, s, list, rp);
    picks' := picks + [pick];
    forall p, t: nat | p in c.projects
      ensures p.deadlinesMissedCopy(t) == f.deadlinesMissed(p)(t) - Dealt(picks', p, t)
    {
      DealtNext(picks, pick, p, t);
      assert old(p.deadlinesMissedCopy)(t) == f.deadlinesMissed(p)(t) - Dealt(picks, p, t);
    }
    EarlyNext(c, pr, env, f, s, list, picks, pick, list', LoopOf(|c.coprocs|, Deadline(rt)));
  }

  /** One turn of an EDF loop: take the eligible job of earliest deadline. */
  method EdfTurn(c: ClientState, pr: ProcResources, env: Env, f: Forecast, s: Sums, list: seq<Result>, rt: nat,
                 ghost picks: seq<Pick>)
      returns (list': seq<Result>, rp: Result?, ghost at: int, ghost picks': seq<Pick>)
    requires Early(c, pr, env, f, s, list, picks) && InLoop(c, env, f, s, picks, LoopOf(|c.coprocs|, Deadline(rt)))
    requires GoesOn(c, list, Deadline(rt), env)
    modifies pr, c.results`alreadySelected, c.results`edfScheduled
    modifies c.projects`recTemp, c.projects`schedPriority, c.projects`deadlinesMissedCopy
    ensures Early(c, pr, env, f, s, list', picks') && InLoop(c, env, f, s, picks', LoopOf(|c.coprocs|, Deadline(rt)))
    ensures at == old(EarliestDeadline(c, rt, env, f)) && rp == if at < 0 then null else c.results[at]
    ensures rp == null ==> list' == list && picks' == picks && Over(c, env, f, s, picks, Deadline(rt))
    ensures rp == null ==> Unselected(c) == old(Unselected(c))
    ensures rp != null ==> list' == if AdmitsAfter(c, list, rp, env, f) then list + [rp] else list
    ensures rp != null ==> picks' == picks + [Pick(rp, AdmitsAfter(c, list, rp, env, f), Deadline(rt))]
    ensures rp != null ==>
              rp.edfScheduled == (list' != list || old(rp.edfScheduled)) && |Unselected(c)| < old(|Unselected(c)|)
  {
    hide *;
    EdfLoop(c, pr, env, f, s, list, picks, rt);
    list', picks' := list, picks;
    rp, at := PickEdf(c, env, f, rt);
    EdfPickIsFirst(c, env, f, s, picks, rt, at);
    if rp == null { return; }
    EdfPickIsRight(c, pr, env, f, s, list, picks, rt, rp);
    list', picks' := TakeEdf(c, pr, env, f, s, list, rp, rt, picks);
  }

  method StopScan(pr: ProcResources, rt: nat) returns (stop: bool)
    requires rt < |pr.usage|
    ensures stop <==> if rt == 0 then pr.StopScanCpu() else pr.Full(rt)
  {
    if rt == 0 {
      stop := pr.StopScanCpu();
    } else {
      stop := pr.StopScanCoproc(rt);
    }
  }

  /** The guard of a loop. */
  method StopLoop(c: ClientState, pr: ProcResources, env: Env, f: Forecast, s: Sums, list: seq<Result>, rt: nat,
                  ghost how: How)
      returns (stop: bool)
    requires Selecting(c, pr, env, f, s, list) && rt < |c.coprocs|
    requires how == Deadline(rt) || how == Arrival(rt)
    ensures stop <==> !GoesOn(c, list, how, env)
  {
    SelectingOk(c, pr, env, f, s, list);
    stop := StopScan(pr, rt);
  }

  /** The guard and the body of an EDF loop. */
  method EdfStep(c: ClientState, pr: ProcResources, env: Env, f: Forecast, s: Sums, list: seq<Result>, rt: nat,
                 ghost picks: seq<Pick>)
      returns (list': seq<Result>, more: bool, ghost picks': seq<Pick>)
    requires Early(c, pr, env, f, s, list, picks) && InLoop(c, env, f, s, picks, LoopOf(|c.coprocs|, Deadline(rt)))
    requires rt < |c.coprocs|
    modifies pr, c.results`alreadySelected, c.results`edfScheduled
    modifies c.projects`recTemp, c.projects`schedPriority, c.projects`deadlinesMissedCopy
    ensures Early(c, pr, env, f, s, list', picks') && InLoop(c, env, f, s, picks', LoopOf(|c.coprocs|, Deadline(rt)))
    ensures |Unselected(c)| <= old(|Unselected(c)|) - if more then 1 else 0
    ensures picks <= picks' && (!more ==> Over(c, env, f, s, picks', Deadline(rt)))
  {
    hide *;
    EarlyKnows(c, pr, env, f, s, list, picks);
    StopIsOver(c, env, f, s, list, picks, Deadline(rt));
    list', more, picks' := list, false, picks;
    var stop := StopLoop(c, pr, env, f, s, list, rt, Deadline(rt));
    if !stop {
      var rp;
      ghost var at;
      list', rp, at, picks' := EdfTurn(c, pr, env, f, s, list, rt, picks);
      more := rp != null;
    }
  }

  /** The jobs of one resource type that would miss their deadline. */
  method AddEdfJobs(c: ClientState, pr: ProcResources, env: Env, f: Forecast, s: Sums, jobs: seq<Result>, rt: nat,
                    ghost before: seq<Pick>)
      returns (list: seq<Result>, ghost picks: seq<Pick>)
    requires Early(c, pr, env, f, s, jobs, before) && InLoop(c, env, f, s, before, LoopOf(|c.coprocs|, Deadline(rt)))
    requires rt < |c.coprocs|
    modifies pr, c.results`alreadySelected, c.results`edfScheduled
    modifies c.projects`recTemp, c.projects`schedPriority, c.projects`deadlinesMissedCopy
    ensures Early(c, pr, env, f, s, list, picks) && InLoop(c, env, f, s, picks, LoopOf(|c.coprocs|, Deadline(rt)))
    ensures before <= picks && Over(c, env, f, s, picks, Deadline(rt))
  {
    hide *;
    list, picks := jobs, before;
    var more := true;
    while more
      invariant Early(c, pr, env, f, s, list, picks) && InLoop(c, env, f, s, picks, LoopOf(|c.coprocs|, Deadline(rt)))
      invariant before <= picks && (!more ==> Over(c, env, f, s, picks, Deadline(rt)))
      decreases |Unselected(c)|, more
    {
      list, more, picks := EdfStep(c, pr, env, f, s, list, rt, picks);
    }
  }

  // ---- by arrival -------------------------------------------------------

  /** The GPU job to take next in order of arrival, if there is one. */
  method PickFifo(c: ClientState, env: Env, f: Forecast, rt: nat) returns (rp: Result?, ghost at: int)
    ensures at == FirstCoproc(c, rt, env, f) && rp == if at < 0 then null else c.results[at]
    ensures FirstBest(CoprocEntries(c, rt, env, f, |c.results|), |c.results|, at)
    ensures rp != null ==> rp in c.results && CoprocEligible(rp, rt, env)
  {
    ghost var entries := CoprocEntries(c, rt, env, f, |c.results|);
    CoprocEntriesAt(c, rt, env, f, |c.results|);
    BestOfIsFirst(entries, |c.results|);
    rp, at := FirstCoprocResult(c, rt, env, f);
  }

  lemma CoprocEntriesAre(c: ClientState, env: Env, f: Forecast, s: Sums, picks: seq<Pick>, rt: nat)
    requires Consistent(c) && RunnableOk(c, env) && PrioritiesOk(c, env, f, s, ListedOf(picks)) && NotStartedOk(c, f)
    requires forall r :: r in c.results ==> (r.alreadySelected <==> r in JobsOf(picks))
    ensures CoprocEntries(c, rt, env, f, |c.results|) == JobEntries(c, Arrival(rt), env, f, s, picks)
  {
    CoprocEntriesAt(c, rt, env, f, |c.results|);
    forall k | 0 <= k < |c.results|
      ensures CoprocEntry(c.results[k], rt, env, f) == ArrivalEntry(c, c.results[k], rt, env, f, s, picks)
    {
      var r := c.results[k];
      assert r in c.results && r.project in c.projects;
      if CoprocEligible(r, rt, env) {
        assert Competes(c, env, r.project) && Priced(ListedOf(picks), r.project, f, s);
      }
    }
  }

  lemma FifoLoop(c: ClientState, pr: ProcResources, env: Env, f: Forecast, s: Sums, list: seq<Result>, picks: seq<Pick>,
                 rt: nat)
    requires Early(c, pr, env, f, s, list, picks)
    ensures CoprocEntries(c, rt, env, f, |c.results|) == JobEntries(c, Arrival(rt), env, f, s, picks)
  {
    hide EdfMarks, PrioritiesOk, ListOk, ProcResources.Accounts, MissesLeft, CoprocEntries, JobEntries, RightPicks,
         InOrder;
    EarlySelection(c, pr, env, f, s, list, picks);
    CoprocEntriesAre(c, env, f, s, picks, rt);
  }

  lemma FifoPickIsFirst(c: ClientState, env: Env, f: Forecast, s: Sums, picks: seq<Pick>, rt: nat, at: int)
    requires -1 <= at < |c.results|
    requires FirstBest(JobEntries(c, Arrival(rt), env, f, s, picks), |c.results|, at)
    ensures if at < 0 then Over(c, env, f, s, picks, Arrival(rt))
            else IsFirst(c.results, JobEntries(c, Arrival(rt), env, f, s, picks), c.results[at])
  {
  }

  lemma FifoPickIsRight(c: ClientState, pr: ProcResources, env: Env, f: Forecast, s: Sums, list: seq<Result>,
                        picks: seq<Pick>, rt: nat, rp: Result)
    requires Early(c, pr, env, f, s, list, picks) && GoesOn(c, list, Arrival(rt), env) && 0 < rt
    requires rp in c.results && CoprocEligible(rp, rt, env)
    requires IsFirst(c.results, JobEntries(c, Arrival(rt), env, f, s, picks), rp)
    ensures RightPick(c, env, f, s, picks, Pick(rp, AdmitsAfter(c, list, rp, env, f), Arrival(rt)))
    ensures rp in env.runnable && !rp.alreadySelected && !rp.nonCpuIntensive && rp.project in c.projects
    ensures EdfMarks(c, list + [rp])
  {
    hide JobEntries, IsFirst, GoesOn, AdmitsAfter;
    EarlySelection(c, pr, env, f, s, list, picks);
    SelectingKnows(c, pr, env, f, s, list, rp);
  }

  method TakeFifo(c: ClientState, pr: ProcResources, env: Env, f: Forecast, s: Sums, list: seq<Result>, rp: Result,
                  rt: nat, ghost picks: seq<Pick>)
      returns (list': seq<Result>, ghost picks': seq<Pick>)
    requires Early(c, pr, env, f, s, list, picks) && InLoop(c, env, f, s, picks, LoopOf(|c.coprocs|, Arrival(rt)))
    requires RightPick(c, env, f, s, picks, Pick(rp, AdmitsAfter(c, list, rp, env, f), Arrival(rt)))
    requires rp in env.runnable && !rp.alreadySelected && !rp.nonCpuIntensive && EdfMarks(c, list + [rp])
    requires rp in c.results && rp.project in c.projects
    modifies pr, c.results`alreadySelected, c.projects`recTemp, c.projects`schedPriority
    ensures Early(c, pr, env, f, s, list', picks') && InLoop(c, env, f, s, picks', LoopOf(|c.coprocs|, Arrival(rt)))
    ensures list' == if AdmitsAfter(c, list, rp, env, f) then list + [rp] else list
    ensures picks' == picks + [Pick(rp, AdmitsAfter(c, list, rp, env, f), Arrival(rt))]
    ensures Unselected(c) == old(Unselected(c)) - {rp} && |Unselected(c)| < old(|Unselected(c)|)
  {
    hide RightPick, AdmitsAfter, Selecting, EdfMarks, NotStartedOk, InLoop, Audited, Unselected, LeftOver, Dealt;
    ghost var pick := Pick(rp, AdmitsAfter(c, list, rp, env, f), Arrival(rt));
    list' := SelectAndTake(c, pr, env, f, s, list, rp);
    picks' := picks + [pick];
    forall p, t: nat | p in c.projects
      ensures p.deadlinesMissedCopy(t) == f.deadlinesMissed(p)(t) - Dealt(picks', p, t)
    {
      DealtNext(picks, pick, p, t);
    }
    EarlyNext(c, pr, env, f, s, list, picks, pick, list', LoopOf(|c.coprocs|, Arrival(rt)));
  }

  /** One turn of the GPU loop in order of arrival. */
  method FifoTurn(c: ClientState, pr: ProcResources, env: Env, f: Forecast, s: Sums, list: seq<Result>, rt: nat,
                  ghost picks: seq<Pick>)
      returns (list': seq<Result>, rp: Result?, ghost at: int, ghost picks': seq<Pick>)
    requires Early(c, pr, env, f, s, list, picks) && InLoop(c, env, f, s, picks, LoopOf(|c.coprocs|, Arrival(rt)))
    requires 0 < rt && GoesOn(c, list, Arrival(rt), env)
    modifies pr, c.results`alreadySelected, c.projects`recTemp, c.projects`schedPriority
    ensures Early(c, pr, env, f, s, list', picks') && InLoop(c, env, f, s, picks', LoopOf(|c.coprocs|, Arrival(rt)))
    ensures at == old(FirstCoproc(c, rt, env, f)) && rp == if at < 0 then null else c.results[at]
    ensures rp == null ==> list' == list && picks' == picks && Over(c, env, f, s, picks, Arrival(rt))
    ensures rp == null ==> Unselected(c) == old(Unselected(c))
    ensures rp != null ==> list' == if AdmitsAfter(c, list, rp, env, f) then list + [rp] else list
    ensures rp != null ==> picks' == picks + [Pick(rp, AdmitsAfter(c, list, rp, env, f), Arrival(rt))]
    ensures rp != null ==> Unselected(c) == old(Unselected(c)) - {rp} && |Unselected(c)| < old(|Unselected(c)|)
  {
    hide *;
    FifoLoop(c, pr, env, f, s, list, picks, rt);
    list', picks' := list, picks;
    rp, at := PickFifo(c, env, f, rt);
    FifoPickIsFirst(c, env, f, s, picks, rt, at);
    if rp == null { return; }
    FifoPickIsRight(c, pr, env, f, s, list, picks, rt, rp);
    list', picks' := TakeFifo(c, pr, env, f, s, list, rp, rt, picks);
  }

  method FifoStep(c: ClientState, pr: ProcResources, env: Env, f: Forecast, s: Sums, list: seq<Result>, rt: nat,
                  ghost picks: seq<Pick>)
      returns (list': seq<Result>, more: bool, ghost picks': seq<Pick>)
    requires Early(c, pr, env, f, s, list, picks) && InLoop(c, env, f, s, picks, LoopOf(|c.coprocs|, Arrival(rt)))
    requires 0 < rt < |c.coprocs|
    modifies pr, c.results`alreadySelected, c.projects`recTemp, c.projects`schedPriority
    ensures Early(c, pr, env, f, s, list', picks') && InLoop(c, env, f, s, picks', LoopOf(|c.coprocs|, Arrival(rt)))
    ensures |Unselected(c)| <= old(|Unselected(c)|) - if more then 1 else 0
    ensures picks <= picks' && (!more ==> Over(c, env, f, s, picks', Arrival(rt)))
  {
    hide *;
    EarlyKnows(c, pr, env, f, s, list, picks);
    StopIsOver(c, env, f, s, list, picks, Arrival(rt));
    list', more, picks' := list, false, picks;
    var stop := StopLoop(c, pr, env, f, s, list, rt, Arrival(rt));
    if !stop {
      var rp;
      ghost var at;
      list', rp, at, picks' := FifoTurn(c, pr, env, f, s, list, rt, picks);
      more := rp != null;
    }
  }

  /** GPU jobs in order of arrival. */
  method AddFifoJobs(c: ClientState, pr: ProcResources, env: Env, f: Forecast, s: Sums, jobs: seq<Result>, rt: nat,
                     ghost before: seq<Pick>)
      returns (list: seq<Result>, ghost picks: seq<Pick>)
    requires Early(c, pr, env, f, s, jobs, before) && InLoop(c, env, f, s, before, LoopOf(|c.coprocs|, Arrival(rt)))
    requires 0 < rt < |c.coprocs|
    modifies pr, c.results`alreadySelected, c.projects`recTemp, c.projects`schedPriority
    ensures Early(c, pr, env, f, s, list, picks) && InLoop(c, env, f, s, picks, LoopOf(|c.coprocs|, Arrival(rt)))
    ensures before <= picks && Over(c, env, f, s, picks, Arrival(rt))
  {
    hide *;
    list, picks := jobs, before;
    var more := true;
    while more
      invariant Early(c, pr, env, f, s, list, picks) && InLoop(c, env, f, s, picks, LoopOf(|c.coprocs|, Arrival(rt)))
      invariant before <= picks && (!more ==> Over(c, env, f, s, picks, Arrival(rt)))
      decreases |Unselected(c)|, more
    {
      list, more, picks := FifoStep(c, pr, env, f, s, list, rt, picks);
    }
  }

  lemma NextLoop(c: ClientState, env: Env, f: Forecast, s: Sums, picks: seq<Pick>, how: How, loop: nat)
    requires InLoop(c, env, f, s, picks, loop) && Over(c, env, f, s, picks, how) && how == HowIn(|c.coprocs|, loop)
    ensures InLoop(c, env, f, s, picks, loop + 1)
  {
    hide Over;
    EndedNow(c, env, f, s, picks, loop);
  }

  /** `add_coproc_jobs`. */
  method AddCoprocJobs(c: ClientState, pr: ProcResources, env: Env, f: Forecast, s: Sums, jobs: seq<Result>, rt: nat,
                       ghost before: seq<Pick>)
      returns (list: seq<Result>, ghost picks: seq<Pick>)
    requires Early(c, pr, env, f, s, jobs, before) && 0 < rt < |c.coprocs| && InLoop(c, env, f, s, before, 2 * rt)
    modifies pr, c.results`alreadySelected, c.results`edfScheduled
    modifies c.projects`recTemp, c.projects`schedPriority, c.projects`deadlinesMissedCopy
    ensures Early(c, pr, env, f, s, list, picks) && before <= picks && InLoop(c, env, f, s, picks, 2 * (rt + 1))
  {
    hide Early, InLoop, Over, ListedOf;
    list, picks := AddEdfJobs(c, pr, env, f, s, jobs, rt, before);
    NextLoop(c, env, f, s, picks, Deadline(rt), 2 * rt);
    list, picks := AddFifoJobs(c, pr, env, f, s, list, rt, picks);
    NextLoop(c, env, f, s, picks, Arrival(rt), 2 * rt + 1);
  }

  /** All GPU jobs, and the CPU jobs that would miss their deadline. */
  method AddGpuAndEdfJobs(c: ClientState, pr: ProcResources, env: Env, f: Forecast, s: Sums)
      returns (list: seq<Result>, ghost picks: seq<Pick>)
    requires Early(c, pr, env, f, s, [], []) && 0 < |c.coprocs|
    modifies pr, c.results`alreadySelected, c.results`edfScheduled
    modifies c.projects`recTemp, c.projects`schedPriority, c.projects`deadlinesMissedCopy
    ensures Early(c, pr, env, f, s, list, picks) && InLoop(c, env, f, s, picks, 2 * |c.coprocs|)
    ensures AllEnded(c, env, f, s, picks, 2 * |c.coprocs| + 1)
  {
    list, picks := [], [];
    assert InLoop(c, env, f, s, picks, 2);
    hide Early, Over, UpTo, AllEnded, ListedOf;
    for j := 1 to |c.coprocs|
      invariant Early(c, pr, env, f, s, list, picks) && InLoop(c, env, f, s, picks, 2 * j)
    {
      list, picks := AddCoprocJobs(c, pr, env, f, s, list, j, picks);
    }
    list, picks := AddEdfJobs(c, pr, env, f, s, list, 0, picks);
    NextLoop(c, env, f, s, picks, Deadline(0), 2 * |c.coprocs|);
  }

  // ---- CPU jobs by project priority -------------------------------------

  /** Jobs that have been picked are selected and no project's candidate. */
  ghost predicate Behind(c: ClientState, done: set<Result>)
    reads c`projects, c`results, c.projects`nextRunnableResult, done`alreadySelected
  {
    forall r ::
      r in done ==> r in c.results && r.alreadySelected && forall p :: p in c.projects ==> p.nextRunnableResult != r
  }

  /** A selected job has been picked, is its project's candidate, or has a task: a
      candidate with a task may have lost its place (client/cpu_sched.cpp:330-335). */
  ghost predicate Accounted(c: ClientState, done: set<Result>)
    reads c`tasks, c`projects, c`results, c.projects`nextRunnableResult, c.results`alreadySelected
  {
    forall r :: r in c.results && r.alreadySelected ==>
      r in done || HasTask(c.tasks, r) || (r.project in c.projects && r.project.nextRunnableResult == r)
  }

  /** One more job has been picked. */
  ghost predicate Taken(c: ClientState, done: set<Result>, rp: Result)
    reads c`tasks, c`projects, c`results, c.projects`nextRunnableResult, c.results`alreadySelected,
          done`alreadySelected, rp`alreadySelected
  {
    Behind(c, done + {rp}) && Accounted(c, done + {rp})
  }

  lemma PickedIsKeptOrOpen(c: ClientState, env: Env, p: Project)
    requires Consistent(c)
    ensures var r := Picked(c, env, p); r == null || r == p.nextRunnableResult || !r.alreadySelected
  {
    ChosenHasTask(c, env, p, p.nextRunnableResult, |c.tasks|);
    TasklessIsFirst(c, env, p, |c.results|);
  }

  ghost function Measure(c: ClientState): nat
    reads c`projects, c`results, c.projects`nextRunnableResult, c.results`alreadySelected
  {
    |Unselected(c)| + |Pending(c)|
  }

  /** Projects that have a candidate and compete for CPUs. */
  ghost function Rivals(c: ClientState): set<Project>
    reads c`projects, c.projects`nextRunnableResult
  {
    set p | p in c.projects && p.nextRunnableResult != null && !p.nonCpuIntensive
  }

  /** The projects that have a candidate once candidates have been given out. */
  ghost function NextRivals(c: ClientState, env: Env): set<Project>
    reads c`tasks, c`results, c`projects, c.projects`nextRunnableResult, c.results`alreadySelected
    reads c.tasks`taskState, c.tasks`schedulerState, (set t | t in c.tasks :: t.result)`alreadySelected
  {
    set p | p in c.projects && Picked(c, env, p) != null && !p.nonCpuIntensive
  }

  /** The candidates are those of the lineup. */
  ghost predicate Matches(c: ClientState, env: Env, u: Lineup)
    reads c`projects, c`results, c.projects`nextRunnableResult, c.results`alreadySelected
  {
    Open(c, env) == u.open && forall p :: p in c.projects ==> p.nextRunnableResult == u.Candidate(p)
  }

  lemma {:induction false} ChosenIs(c: ClientState, env: Env, p: Project, start: Result?, n: nat)
    requires Consistent(c) && n <= |c.tasks|
    ensures Chosen(c, env, p, start, n) == ChosenFrom(c, p, start, Open(c, env), n)
  {
    if n > 0 {
      ChosenIs(c, env, p, start, n - 1);
      assert c.tasks[n - 1] in c.tasks;
    }
  }

  lemma {:induction false} TasklessIs(c: ClientState, env: Env, p: Project, n: nat)
    requires n <= |c.results|
    ensures FirstTaskless(c, env, p, n) == TasklessFrom(c, p, Open(c, env), n)
  {
    if n > 0 {
      TasklessIs(c, env, p, n - 1);
      assert c.results[n - 1] in c.results;
    }
  }

  /** The two scans give the candidates that they would on values. */
  lemma OfferedIs(c: ClientState, env: Env, u: Lineup)
    requires Consistent(c) && Matches(c, env, u)
    ensures forall p :: p in c.projects ==> Picked(c, env, p) == Offered(c, u).Candidate(p)
  {
    hide Open, Chosen, ChosenFrom, FirstTaskless, TasklessFrom, Consistent;
    forall p | p in c.projects ensures Picked(c, env, p) == Offered(c, u).Candidate(p) {
      ChosenIs(c, env, p, p.nextRunnableResult, |c.tasks|);
      TasklessIs(c, env, p, |c.results|);
    }
  }

  /** Marking the candidates closes them, and no other job. */
  lemma MarkedIs(c: ClientState, env: Env, u: Lineup, was: set<Result>)
    requires Consistent(c) && u.open == CpuJobs(was, env) && Unselected(c) <= was
    requires forall p :: p in c.projects ==> p.nextRunnableResult == Offered(c, u).Candidate(p)
    requires forall p :: p in c.projects ==> p.nextRunnableResult !in Unselected(c)
    requires forall r ::
               r in was && r !in Unselected(c) ==> r.project in c.projects && r.project.nextRunnableResult == r
    ensures Matches(c, env, Offered(c, u))
  {
    hide ChosenFrom, TasklessFrom;
    OpenIsUnselected(c, env);
    var v := Offered(c, u);
    forall r | r in u.open ensures r in v.open <==> r in Open(c, env) {
      if r.project in c.projects { assert v.of[r.project] == r.project.nextRunnableResult; }
    }
    assert Open(c, env) == v.open;
  }

  /** Give projects candidates; the picked jobs stay out. */
  method RefreshCandidates(c: ClientState, env: Env, ghost done: set<Result>, ghost u: Lineup)
    requires Consistent(c) && CandidatesOk(c, env) && Behind(c, done) && Accounted(c, done) && Matches(c, env, u)
    modifies c.projects`nextRunnableResult, c.results`alreadySelected
    ensures CandidatesOk(c, env) && Behind(c, done) && Accounted(c, done) && Matches(c, env, Offered(c, u))
    ensures Unselected(c) <= old(Unselected(c)) && Measure(c) <= old(Measure(c))
    ensures Rivals(c) == old(NextRivals(c, env))
    ensures forall p :: p in c.projects ==> p.nextRunnableResult == old(Picked(c, env, p))
    ensures forall p :: p in c.projects ==> p.nextRunnableResult !in Unselected(c)
    ensures forall p :: p in c.projects && p.nextRunnableResult == null ==> NothingLeft(c, p, Open(c, env))
  {
    hide Picked, NothingLeft, CandidateOk, Open, HasTask, Offered;
    forall p | p in c.projects
      ensures Picked(c, env, p) == null || Picked(c, env, p) == p.nextRunnableResult
              || !Picked(c, env, p).alreadySelected
      ensures p.nextRunnableResult != null ==>
                Picked(c, env, p) != null
                  && (Picked(c, env, p) == p.nextRunnableResult || HasTask(c.tasks, p.nextRunnableResult))
    {
      PickedIsKeptOrOpen(c, env, p);
      PickedKeeps(c, env, p);
    }
    ghost var was := Unselected(c);
    OpenIsUnselected(c, env);
    OfferedIs(c, env, u);
    AssignResultsToProjects(c, env);
    MarkedIs(c, env, u, was);
  }

  /** What a pick from the candidates is like. */
  ghost predicate GoodChoice(c: ClientState, env: Env, f: Forecast, s: Sums, list: seq<Result>, rp: Result,
                             rivals: set<Project>)
    reads c, rp`alreadySelected
  {
    && rp in c.results && rp in env.runnable && !rp.UsesCoprocs() && rp.alreadySelected && !rp.project.nonCpuIntensive
    && rp.project in rivals && (forall q :: q in rivals ==> q in c.projects && Competes(c, env, q))
    && IsFirst(c.projects, RivalEntries(c, rivals, f, s, list), rp.project)
  }

  lemma BestIsGoodChoice(c: ClientState, env: Env, f: Forecast, s: Sums, list: seq<Result>)
    requires Consistent(c) && CandidatesOk(c, env) && RunnableOk(c, env) && PrioritiesOk(c, env, f, s, list)
    requires forall p :: p in c.projects ==> p.nextRunnableResult !in Unselected(c)
    ensures var at := LargestDebt(c);
            if at < 0 then Rivals(c) == {}
            else
              var p := c.projects[at];
              && p in Rivals(c) && p.nextRunnableResult != null
                 && GoodChoice(c, env, f, s, list, p.nextRunnableResult, Rivals(c))
              && p.nextRunnableResult.project == p && p.nextRunnableResult in c.results
                 && p.nextRunnableResult.alreadySelected
  {
    hide PriorityAfter;
    ghost var entries, rivals := ProjectEntries(c, |c.projects|), RivalEntries(c, Rivals(c), f, s, list);
    ProjectEntriesAt(c, |c.projects|);
    BestOfIsFirst(entries, |c.projects|);
    forall p | p in Rivals(c) ensures Competes(c, env, p) && Priced(list, p, f, s) {
      assert CandidateOk(c, env, p, p.nextRunnableResult, Open(c, env));
    }
    forall k | 0 <= k < |c.projects|
      ensures entries[k] == rivals[k] && (entries[k].In? <==> c.projects[k] in Rivals(c))
    {
      assert entries[k] == ProjectEntry(c.projects[k]);
    }
    assert entries == rivals;
  }

  /** Take the candidate of the project of highest priority. */
  method TakeBest(c: ClientState, env: Env, f: Forecast, s: Sums, ghost list: seq<Result>)
      returns (rp: Result?, ghost rivals: set<Project>)
    requires Consistent(c) && CandidatesOk(c, env) && RunnableOk(c, env) && PrioritiesOk(c, env, f, s, list)
    requires forall p :: p in c.projects ==> p.nextRunnableResult !in Unselected(c)
    modifies c.projects`nextRunnableResult
    ensures rivals == old(Rivals(c)) && (rp == null ==> rivals == Rivals(c) == {})
    ensures rp != null ==>
              GoodChoice(c, env, f, s, list, rp, rivals) && rp.project in c.projects
                && Rivals(c) == rivals - {rp.project}
    ensures rp != null ==> old(rp.project.nextRunnableResult) == rp && rp.project.nextRunnableResult == null
    ensures forall p ::
              p in c.projects && (rp == null || p != rp.project) ==> p.nextRunnableResult == old(p.nextRunnableResult)
    ensures Measure(c) <= old(Measure(c)) - if rp == null then 0 else 1
  {
    hide ResultsOk, HasTask, OneTaskPerResult, PrioritiesOk, GoodChoice, CandidatesOk;
    hide NoTaskOpen, ProjectEntry, LargestDebt, Competes, Open, RunnableOk, Unselected;
    rivals := Rivals(c);
    ghost var before, unselected := Pending(c), Unselected(c);
    ghost var at;
    BestIsGoodChoice(c, env, f, s, list);
    rp, at := LargestDebtProjectBestResult(c);
    if rp == null {
      assert Pending(c) == before && Unselected(c) == unselected;
      return;
    }
    assert rp.project == c.projects[at];
    assert Pending(c) == before - {c.projects[at]} && Unselected(c) == unselected;
  }

  /** A candidate that is taken is behind the picks, and no other project's. */
  method TakeCandidate(c: ClientState, env: Env, f: Forecast, s: Sums, ghost list: seq<Result>, ghost done: set<Result>)
      returns (rp: Result?, ghost rivals: set<Project>)
    requires Consistent(c) && CandidatesOk(c, env) && RunnableOk(c, env) && PrioritiesOk(c, env, f, s, list)
    requires Behind(c, done) && Accounted(c, done) && forall p :: p in c.projects ==>
               p.nextRunnableResult !in Unselected(c)
    modifies c.projects`nextRunnableResult
    ensures CandidatesOk(c, env) && Behind(c, done) && rivals == old(Rivals(c))
    ensures rp == null ==> rivals == Rivals(c) == {} && Accounted(c, done)
    ensures rp != null ==> GoodChoice(c, env, f, s, list, rp, rivals) && rp !in done && Taken(c, done, rp)
    ensures rp != null ==>
              old(rp.project.nextRunnableResult) == rp && rp.project in c.projects && Rivals(c) == rivals - {rp.project}
    ensures rp != null ==> rp.project.nextRunnableResult == null
    ensures forall p ::
              p in c.projects && (rp == null || p != rp.project) ==> p.nextRunnableResult == old(p.nextRunnableResult)
    ensures Measure(c) <= old(Measure(c)) - if rp == null then 0 else 1
  {
    hide Consistent, HasTask, PrioritiesOk, IsFirst, Competes, Rivals, Measure;
    hide NoTaskOpen, Open, RunnableOk, Unselected;
    rp, rivals := TakeBest(c, env, f, s, list);
  }

  /** No project that competes for CPUs has a job left that could be picked. */
  ghost predicate CpuJobsDone(c: ClientState, env: Env)
    reads c`tasks, c`results, c`projects, c.results`alreadySelected, c.tasks`taskState
  {
    forall p :: p in c.projects && !p.nonCpuIntensive ==> NothingLeft(c, p, Open(c, env))
  }

  /** Every project but perhaps one has a candidate or no job left. */
  ghost predicate DryBut(c: ClientState, env: Env, but: Project)
    reads c`tasks, c`results, c`projects, c.projects`nextRunnableResult, c.results`alreadySelected, c.tasks`taskState
  {
    forall p :: p in c.projects && p.nextRunnableResult == null && p != but ==> NothingLeft(c, p, Open(c, env))
  }

  lemma AllDry(c: ClientState, env: Env)
    requires forall p :: p in c.projects && p.nextRunnableResult == null ==> NothingLeft(c, p, Open(c, env))
    ensures Rivals(c) == {} ==> CpuJobsDone(c, env)
  {
    if p :| p in c.projects && !p.nonCpuIntensive && p.nextRunnableResult != null {
      assert p in Rivals(c);
    }
  }

  lemma MatchesKnows(c: ClientState, env: Env, v: Lineup)
    requires Matches(c, env, v)
    ensures Open(c, env) == v.open && forall p :: p in c.projects ==> p.nextRunnableResult == v.Candidate(p)
    ensures Rivals(c) == RivalsIn(c, v)
  {
  }

  lemma MatchesTaken(c: ClientState, env: Env, v: Lineup, p: Project)
    requires Open(c, env) == v.open && p.nextRunnableResult == null
    requires forall q :: q in c.projects && q != p ==> q.nextRunnableResult == v.Candidate(q)
    ensures Matches(c, env, v.Without(p))
  {
  }

  lemma ChoiceIsRight(c: ClientState, u: Lineup, job: Result, rivals: set<Project>)
    requires rivals == RivalsIn(c, Offered(c, u)) && Offered(c, u).Candidate(job.project) == job
    ensures RightChoice(c, u, job, rivals)
  {
  }

  /** Pick by priority. */
  method PickByPriority(c: ClientState, env: Env, f: Forecast, s: Sums, ghost list: seq<Result>,
                        ghost done: set<Result>, ghost u: Lineup)
      returns (rp: Result?, ghost rivals: set<Project>)
    requires Consistent(c) && CandidatesOk(c, env) && RunnableOk(c, env) && PrioritiesOk(c, env, f, s, list)
    requires Behind(c, done) && Accounted(c, done) && Matches(c, env, u)
    modifies c.projects`nextRunnableResult, c.results`alreadySelected
    ensures CandidatesOk(c, env) && Behind(c, done) && rivals == old(NextRivals(c, env))
    ensures rivals == RivalsIn(c, Offered(c, u))
    ensures rp != null ==> RightChoice(c, u, rp, rivals) && Matches(c, env, Offered(c, u).Without(rp.project))
    ensures rp == null ==> CpuJobsDone(c, env) && rivals == Rivals(c) == {} && Accounted(c, done)
    ensures rp == null ==> forall p :: p in c.projects && p.nextRunnableResult == null ==>
              NothingLeft(c, p, Open(c, env))
    ensures rp != null ==> GoodChoice(c, env, f, s, list, rp, rivals) && rp !in done && Taken(c, done, rp)
    ensures rp != null ==> rp.project in c.projects && Rivals(c) == rivals - {rp.project}
    ensures rp != null ==> DryBut(c, env, rp.project)
    ensures Unselected(c) <= old(Unselected(c)) && Measure(c) <= old(Measure(c)) - if rp == null then 0 else 1
  {
    hide NothingLeft, Picked, GoodChoice, CandidatesOk, Consistent, PrioritiesOk, Behind, Accounted, Open, NextRivals,
         Measure, Unselected, Matches, Offered, RivalsIn, RightChoice;
    RefreshCandidates(c, env, done, u);
    ghost var v := Offered(c, u);
    MatchesKnows(c, env, v);
    AllDry(c, env);
    rp, rivals := TakeCandidate(c, env, f, s, list, done);
    if rp != null {
      MatchesTaken(c, env, v, rp.project);
      ChoiceIsRight(c, u, rp, rivals);
    }
  }

  // ---- the picks by priority --------------------------------------------

  ghost function ProjectsFrom(log: seq<Pick>, k: nat): set<Project> {
    set m | k <= m < |log| :: log[m].job.project
  }

  /** A project had a candidate at a pick exactly if it was picked then or later, or
      is among `rest`, the ones that have a candidate now. */
  ghost predicate RivalsFrom(log: seq<Pick>, rest: set<Project>) {
    forall k :: 0 <= k < |log| ==> log[k].Rivals() == ProjectsFrom(log, k) + rest
  }

  lemma ProjectsNext(log: seq<Pick>, pick: Pick, k: nat)
    requires k <= |log|
    ensures ProjectsFrom(log + [pick], k) == ProjectsFrom(log, k) + {pick.job.project}
  {
    var next := log + [pick];
    assert next[|log|] == pick;
    forall p | p in ProjectsFrom(log, k) ensures p in ProjectsFrom(next, k) {
      var m :| k <= m < |log| && log[m].job.project == p;
      assert next[m].job.project == p;
    }
  }

  lemma RivalsNext(log: seq<Pick>, pick: Pick, rest: set<Project>)
    requires RivalsFrom(log, rest) && pick.Rivals() == rest && pick.job.project in rest
    ensures RivalsFrom(log + [pick], rest - {pick.job.project})
  {
    var next := log + [pick];
    forall k | 0 <= k < |next| ensures next[k].Rivals() == ProjectsFrom(next, k) + (rest - {pick.job.project}) {
      ProjectsNext(log, pick, k);
      if k < |log| { assert log[k].Rivals() == ProjectsFrom(log, k) + rest; }
    }
  }

  lemma {:induction false} NoneChosen(c: ClientState, env: Env, p: Project, n: nat)
    requires Consistent(c) && n <= |c.tasks| && NoTaskOpen(c, p, Open(c, env))
    ensures Chosen(c, env, p, null, n) == null
  {
    if n > 0 {
      NoneChosen(c, env, p, n - 1);
      assert c.tasks[n - 1] in c.tasks;
    }
  }

  /** A project gets a candidate only if it has a job left. */
  lemma NoneLeftToPick(c: ClientState, env: Env, p: Project)
    requires Consistent(c) && p.nextRunnableResult == null && NothingLeft(c, p, Open(c, env))
    ensures Picked(c, env, p) == null
  {
    NoneChosen(c, env, p, |c.tasks|);
    TasklessIsFirst(c, env, p, |c.results|);
  }

  /** Giving out candidates does not change which projects had one at a pick. */
  lemma RivalsStay(c: ClientState, env: Env, log: seq<Pick>)
    requires Consistent(c) && RivalsFrom(log, Rivals(c)) && (log != [] ==> DryBut(c, env, log[|log| - 1].job.project))
    requires forall k :: 0 <= k < |log| ==> log[k].job.project in c.projects && !log[k].job.project.nonCpuIntensive
    ensures RivalsFrom(log, NextRivals(c, env))
  {
    forall p | p in c.projects
      ensures p in Rivals(c) ==> p in NextRivals(c, env)
      ensures p in NextRivals(c, env) ==> p in Rivals(c) || log == [] || p == log[|log| - 1].job.project
    {
      PickedKeeps(c, env, p);
      if log != [] && p.nextRunnableResult == null && p != log[|log| - 1].job.project {
        NoneLeftToPick(c, env, p);
      }
    }
    forall k | 0 <= k < |log| ensures log[k].Rivals() == ProjectsFrom(log, k) + NextRivals(c, env) {
      assert log[|log| - 1].job.project in ProjectsFrom(log, k);
    }
  }

  /** The picks so far: those of the loops before, and those by priority. */
  ghost predicate Logged(c: ClientState, env: Env, f: Forecast, s: Sums, list: seq<Result>, early: seq<Pick>,
                         log: seq<Pick>)
    reads c, c.tasks`hasShm, c.tasks`taskState, c.tasks`schedulerState
  {
    && list == ListedOf(early + log) && RightPicks(c, env, f, s, early + log) && AllButLast(c, env, f, s, early)
    && RightChoices(c, env, early, log)
    && forall k :: 0 <= k < |log| ==>
         log[k].how.ByPriority? && log[k].job.project in c.projects && !log[k].job.project.nonCpuIntensive
  }

  /** What the picks leave: candidates, and jobs that none has looked at. */
  ghost predicate Remaining(c: ClientState, env: Env, early: seq<Pick>, log: seq<Pick>)
    reads c`tasks, c`results, c`projects, c.projects`nextRunnableResult, c.results`alreadySelected, c.tasks`taskState
    reads JobsOf(early + log)`alreadySelected
  {
    && CandidatesOk(c, env) && Behind(c, JobsOf(early + log)) && Accounted(c, JobsOf(early + log))
    && RivalsFrom(log, Rivals(c)) && (log != [] ==> DryBut(c, env, log[|log| - 1].job.project))
  }

  /** The state of the priority loop. */
  ghost predicate Picking(c: ClientState, pr: ProcResources, env: Env, f: Forecast, s: Sums, list: seq<Result>,
                          early: seq<Pick>, log: seq<Pick>)
    reads c, c.projects`resourceShareFrac, c.projects`recTemp, c.projects`schedPriority
    reads c.tasks`hasShm, c.tasks`taskState, c.tasks`schedulerState
    reads c.projects`nextRunnableResult, c.results`alreadySelected, list`alreadySelected,
          JobsOf(early + log)`alreadySelected, pr
  {
    Selecting(c, pr, env, f, s, list) && Logged(c, env, f, s, list, early, log) && Remaining(c, env, early, log)
  }

  lemma PriorityPickIsRight(c: ClientState, env: Env, f: Forecast, s: Sums, list: seq<Result>, picks: seq<Pick>,
                            rp: Result, rivals: set<Project>)
    requires list == ListedOf(picks) && GoodChoice(c, env, f, s, list, rp, rivals) && rp !in JobsOf(picks)
    requires StCpus(list) < env.ncpus as real
    ensures RightPick(c, env, f, s, picks, Pick(rp, AdmitsAfter(c, list, rp, env, f), ByPriority(rivals)))
  {
    hide AdmitsAfter, IsFirst, RivalEntries;
  }

  lemma LoggedNext(c: ClientState, env: Env, f: Forecast, s: Sums, list: seq<Result>, early: seq<Pick>, log: seq<Pick>,
                   pick: Pick)
    requires Logged(c, env, f, s, list, early, log) && RightPick(c, env, f, s, early + log, pick)
             && pick.how.ByPriority?
    requires pick.job.project in c.projects && !pick.job.project.nonCpuIntensive
    requires RightChoice(c, LineupAfter(c, env, early, log), pick.job, pick.Rivals())
    ensures Logged(c, env, f, s, if pick.listed then list + [pick.job] else list, early, log + [pick])
    ensures early + (log + [pick]) == early + log + [pick]
    ensures LineupAfter(c, env, early, log + [pick]) ==
              Offered(c, LineupAfter(c, env, early, log)).Without(pick.job.project)
  {
    hide RightPick, RightPicks, AllButLast, ListedOf, RightChoice, RightChoices, Offered, LineupAfter;
    RightNext(c, env, f, s, early + log, pick);
    ChoicesNext(c, env, early, log, pick);
    assert early + (log + [pick]) == early + log + [pick];
  }

  lemma PickingKnows(c: ClientState, pr: ProcResources, env: Env, f: Forecast, s: Sums, list: seq<Result>,
                     early: seq<Pick>, log: seq<Pick>)
    requires Picking(c, pr, env, f, s, list, early, log)
    ensures Selecting(c, pr, env, f, s, list) && Logged(c, env, f, s, list, early, log)
    ensures Consistent(c) && RunnableOk(c, env) && PrioritiesOk(c, env, f, s, list)
    ensures CandidatesOk(c, env) && Behind(c, JobsOf(early + log)) && Accounted(c, JobsOf(early + log))
    ensures RivalsFrom(log, Rivals(c)) && (log != [] ==> DryBut(c, env, log[|log| - 1].job.project))
    ensures forall k :: 0 <= k < |log| ==> log[k].job.project in c.projects && !log[k].job.project.nonCpuIntensive
    ensures pr.ncpus == env.ncpus && pr.ncpusUsedSt == StCpus(list) && list == ListedOf(early + log)
    ensures forall r :: r in list ==> r in JobsOf(early + log)
  {
    hide ListOk, RightPicks, RightChoices, AllButLast, RunnableOk, PrioritiesOk, CandidatesOk, Behind, Accounted,
         RivalsFrom, DryBut;
    ListedAreJobs(early + log);
  }

  lemma {:induction false} ListedAreJobs(picks: seq<Pick>)
    ensures forall r :: r in ListedOf(picks) ==> r in JobsOf(picks)
  {
    if picks != [] {
      var front, pick := picks[..|picks| - 1], picks[|picks| - 1];
      ListedAreJobs(front);
      JobsNext(front, pick);
      assert picks == front + [pick];
    }
  }

  /** The list itself does not change with the candidates. */
  lemma StillSelecting(c: ClientState, pr: ProcResources, env: Env, f: Forecast, s: Sums, list: seq<Result>,
                       done: set<Result>)
    requires Consistent(c) && RunnableOk(c, env) && s == SumsOf(c, env, f) && PrioritiesOk(c, env, f, s, list)
    requires pr.Accounts(c, list, env) && Behind(c, done)
    requires Distinct(list) && forall r :: r in list ==> r in done && r in env.runnable && !r.project.nonCpuIntensive
    ensures Selecting(c, pr, env, f, s, list)
  {
    hide ProcResources.Accounts, PrioritiesOk, RunnableOk, Consistent;
  }

  lemma ListParts(c: ClientState, pr: ProcResources, env: Env, f: Forecast, s: Sums, list: seq<Result>)
    requires Selecting(c, pr, env, f, s, list)
    ensures s == SumsOf(c, env, f) && pr.Accounts(c, list, env)
    ensures Distinct(list) && forall r :: r in list ==> r in env.runnable && !r.project.nonCpuIntensive
  {
    hide ProcResources.Accounts, PrioritiesOk, RunnableOk, Consistent;
  }

  /** The body of the priority loop, up to the choice. */
  method PickInTurn(c: ClientState, pr: ProcResources, env: Env, f: Forecast, s: Sums, list: seq<Result>,
                    ghost early: seq<Pick>, ghost log: seq<Pick>)
      returns (rp: Result?, ghost rivals: set<Project>)
    requires Picking(c, pr, env, f, s, list, early, log) && Matches(c, env, LineupAfter(c, env, early, log))
    modifies c.projects`nextRunnableResult, c.results`alreadySelected
    ensures Selecting(c, pr, env, f, s, list) && CandidatesOk(c, env) && rivals == old(NextRivals(c, env))
    ensures rp == null ==> LastOver(c, env, early, log)
    ensures rp != null ==> RightChoice(c, LineupAfter(c, env, early, log), rp, rivals)
    ensures rp != null ==> Matches(c, env, Offered(c, LineupAfter(c, env, early, log)).Without(rp.project))
    ensures RivalsFrom(log, rivals) && Logged(c, env, f, s, list, early, log)
    ensures rp == null ==> CpuJobsDone(c, env) && Picking(c, pr, env, f, s, list, early, log) && Rivals(c) == {}
    ensures rp != null ==> GoodChoice(c, env, f, s, list, rp, rivals) && rp !in JobsOf(early + log)
    ensures rp != null ==> rp.project in c.projects && Rivals(c) == rivals - {rp.project}
    ensures rp != null ==> Taken(c, JobsOf(early + log), rp) && DryBut(c, env, rp.project)
    ensures Measure(c) <= old(Measure(c)) - if rp == null then 0 else 1
  {
    hide *;
    ghost var done := JobsOf(early + log);
    PickingKnows(c, pr, env, f, s, list, early, log);
    ListParts(c, pr, env, f, s, list);
    RivalsStay(c, env, log);
    rp, rivals := PickByPriority(c, env, f, s, list, done, LineupAfter(c, env, early, log));
    StillSelecting(c, pr, env, f, s, list, done);
    if rp == null {
      NothingPicked(c, pr, env, f, s, list, early, log);
      LastIsOver(c, env, early, log);
    }
  }

  lemma LastIsOver(c: ClientState, env: Env, early: seq<Pick>, log: seq<Pick>)
    requires StCpus(ListedOf(early + log)) >= env.ncpus as real
             || RivalsIn(c, Offered(c, LineupAfter(c, env, early, log))) == {}
    ensures LastOver(c, env, early, log)
  {
  }

  lemma NothingPicked(c: ClientState, pr: ProcResources, env: Env, f: Forecast, s: Sums, list: seq<Result>,
                      early: seq<Pick>, log: seq<Pick>)
    requires Selecting(c, pr, env, f, s, list) && Logged(c, env, f, s, list, early, log)
    requires CandidatesOk(c, env) && Behind(c, JobsOf(early + log)) && Accounted(c, JobsOf(early + log))
             && RivalsFrom(log, Rivals(c))
    requires forall p :: p in c.projects && p.nextRunnableResult == null ==> NothingLeft(c, p, Open(c, env))
    ensures Picking(c, pr, env, f, s, list, early, log)
  {
    hide Selecting, Logged, CandidatesOk, Behind, Accounted, RivalsFrom, NothingLeft, Open, Rivals;
  }

  lemma OnePicked(c: ClientState, pr: ProcResources, env: Env, f: Forecast, s: Sums, list: seq<Result>,
                  early: seq<Pick>, log: seq<Pick>, pick: Pick, list': seq<Result>)
    requires Logged(c, env, f, s, list, early, log) && RightPick(c, env, f, s, early + log, pick)
             && pick.how.ByPriority?
    requires pick.job.project in pick.how.rivals && pick.job.project in c.projects && !pick.job.project.nonCpuIntensive
    requires list' == if pick.listed then list + [pick.job] else list
    requires Selecting(c, pr, env, f, s, list') && CandidatesOk(c, env) && Taken(c, JobsOf(early + log), pick.job)
    requires RivalsFrom(log, pick.how.rivals) && Rivals(c) == pick.how.rivals - {pick.job.project}
             && DryBut(c, env, pick.job.project)
    requires RightChoice(c, LineupAfter(c, env, early, log), pick.job, pick.how.rivals)
    ensures Picking(c, pr, env, f, s, list', early, log + [pick])
    ensures LineupAfter(c, env, early, log + [pick]) ==
              Offered(c, LineupAfter(c, env, early, log)).Without(pick.job.project)
  {
    hide RightChoice, Offered, LineupAfter;
    hide Selecting, Logged, CandidatesOk, Behind, Accounted, RivalsFrom, Rivals, RightPick, DryBut;
    LoggedNext(c, env, f, s, list, early, log, pick);
    JobsNext(early + log, pick);
    RivalsNext(log, pick, pick.how.rivals);
  }

  /** List the job that was picked if it fits. */
  method TakeChosen(c: ClientState, pr: ProcResources, env: Env, f: Forecast, s: Sums, list: seq<Result>, rp: Result,
                    ghost done: set<Result>, ghost u: Lineup)
      returns (list': seq<Result>)
    requires Selecting(c, pr, env, f, s, list) && rp in c.results && rp in env.runnable && rp.alreadySelected
             && rp !in list
    requires !rp.project.nonCpuIntensive && Taken(c, done, rp) && Matches(c, env, u)
    modifies pr, rp.project`recTemp, rp.project`schedPriority
    ensures Selecting(c, pr, env, f, s, list') && Taken(c, done, rp) && Matches(c, env, u)
    ensures list' == if AdmitsAfter(c, list, rp, env, f) then list + [rp] else list
  {
    hide *;
    list' := TakeJob(c, pr, env, f, s, list, rp);
  }

  /** The body of the priority loop: the candidate of the project that is owed most
      is listed if it fits. */
  method PriorityTurn(c: ClientState, pr: ProcResources, env: Env, f: Forecast, s: Sums, list: seq<Result>,
                      ghost early: seq<Pick>, ghost log: seq<Pick>)
      returns (list': seq<Result>, rp: Result?, ghost log': seq<Pick>)
    requires Picking(c, pr, env, f, s, list, early, log) && StCpus(list) < env.ncpus as real
    requires Matches(c, env, LineupAfter(c, env, early, log))
    modifies pr, c.results`alreadySelected, c.projects`nextRunnableResult, c.projects`recTemp, c.projects`schedPriority
    ensures Picking(c, pr, env, f, s, list', early, log')
    ensures rp == null ==> list' == list && log' == log && CpuJobsDone(c, env) && Rivals(c) == {}
    ensures if rp == null then LastOver(c, env, early, log) else Matches(c, env, LineupAfter(c, env, early, log'))
    ensures rp != null ==> rp == Offered(c, LineupAfter(c, env, early, log)).Candidate(rp.project)
    ensures rp != null ==> list' == if AdmitsAfter(c, list, rp, env, f) then list + [rp] else list
    ensures rp != null ==>
              var rivals := RivalsIn(c, Offered(c, LineupAfter(c, env, early, log)));
              log' == log + [Pick(rp, AdmitsAfter(c, list, rp, env, f), ByPriority(rivals))]
    ensures Measure(c) <= old(Measure(c)) - if rp == null then 0 else 1
  {
    hide *;
    list', log' := list, log;
    ghost var rivals, done := {}, JobsOf(early + log);
    PickingKnows(c, pr, env, f, s, list, early, log);
    rp, rivals := PickInTurn(c, pr, env, f, s, list, early, log);
    if rp == null { return; }
    ghost var pick := Pick(rp, AdmitsAfter(c, list, rp, env, f), ByPriority(rivals));
    ChoiceKnows(c, env, f, s, list, early, log, rp, rivals);
    list' := TakeChosen(c, pr, env, f, s, list, rp, done,
      Offered(c, LineupAfter(c, env, early, log)).Without(rp.project));
    log' := log + [pick];
    OnePicked(c, pr, env, f, s, list, early, log, pick, list');
  }

  lemma ChoiceKnows(c: ClientState, env: Env, f: Forecast, s: Sums, list: seq<Result>, early: seq<Pick>, log: seq<Pick>,
                    rp: Result, rivals: set<Project>)
    requires Logged(c, env, f, s, list, early, log) && GoodChoice(c, env, f, s, list, rp, rivals)
    requires rp !in JobsOf(early + log) && StCpus(list) < env.ncpus as real
    ensures RightPick(c, env, f, s, early + log, Pick(rp, AdmitsAfter(c, list, rp, env, f), ByPriority(rivals)))
    ensures RightChoice(c, LineupAfter(c, env, early, log), rp, rivals) ==>
              rivals == RivalsIn(c, Offered(c, LineupAfter(c, env, early, log)))
              && rp == Offered(c, LineupAfter(c, env, early, log)).Candidate(rp.project)
    ensures rp in c.results && rp in env.runnable && rp.alreadySelected && !rp.project.nonCpuIntensive
            && rp.project in rivals
    ensures rp !in list
  {
    hide AdmitsAfter, IsFirst, RivalEntries, RightPick, AllButLast, StCpus, LineupAfter, Offered, RightChoices;
    PriorityPickIsRight(c, env, f, s, list, early + log, rp, rivals);
    ListedAreJobs(early + log);
  }

  /** The guard and the body of the priority loop. */
  method PriorityStep(c: ClientState, pr: ProcResources, env: Env, f: Forecast, s: Sums, list: seq<Result>,
                      ghost early: seq<Pick>, ghost log: seq<Pick>)
      returns (list': seq<Result>, more: bool, ghost log': seq<Pick>)
    requires Picking(c, pr, env, f, s, list, early, log) && Matches(c, env, LineupAfter(c, env, early, log))
    modifies pr, c.results`alreadySelected, c.projects`nextRunnableResult, c.projects`recTemp, c.projects`schedPriority
    ensures Picking(c, pr, env, f, s, list', early, log')
    ensures Measure(c) <= old(Measure(c)) - if more then 1 else 0
    ensures if more then Matches(c, env, LineupAfter(c, env, early, log')) else LastOver(c, env, early, log')
    ensures !more ==> StCpus(list') >= env.ncpus as real || (CpuJobsDone(c, env) && Rivals(c) == {})
  {
    hide Matches, LineupAfter, LastOver, Offered, Logged, ListedOf;
    hide Picking, StCpus, CpuJobsDone, Rivals, Measure, AdmitsAfter, Picked, NextRivals;
    PickingKnows(c, pr, env, f, s, list, early, log);
    if pr.StopScanCpu() {
      LastIsOver(c, env, early, log);
      return list, false, log;
    }
    var rp;
    list', rp, log' := PriorityTurn(c, pr, env, f, s, list, early, log);
    more := rp != null;
  }

  /** CPU jobs from the projects that are owed most.  The loop ends because each
      turn uses up an unselected result or a candidate. */
  method AddByPriority(c: ClientState, pr: ProcResources, env: Env, f: Forecast, s: Sums, jobs: seq<Result>,
                       ghost early: seq<Pick>)
      returns (list: seq<Result>, ghost log: seq<Pick>)
    requires Picking(c, pr, env, f, s, jobs, early, []) && EdfMarks(c, jobs)
    requires Matches(c, env, LineupAfter(c, env, early, []))
    modifies pr, c.results`alreadySelected, c.projects`nextRunnableResult, c.projects`recTemp, c.projects`schedPriority
    ensures Picking(c, pr, env, f, s, list, early, log) && EdfMarks(c, jobs) && LastOver(c, env, early, log)
    ensures StCpus(list) >= env.ncpus as real || (CpuJobsDone(c, env) && Rivals(c) == {})
  {
    hide *;
    list, log := jobs, [];
    var more := true;
    while more
      invariant Picking(c, pr, env, f, s, list, early, log) && EdfMarks(c, jobs)
      invariant if more then Matches(c, env, LineupAfter(c, env, early, log)) else LastOver(c, env, early, log)
      invariant !more ==> StCpus(list) >= env.ncpus as real || (CpuJobsDone(c, env) && Rivals(c) == {})
      decreases Measure(c), more
    {
      list, more, log := PriorityStep(c, pr, env, f, s, list, early, log);
    }
  }

  // ---- the whole list ---------------------------------------------------

  method ResetResults(c: ClientState, f: Forecast)
    modifies c.results`alreadySelected, c.results`edfScheduled, c.results`notStarted
    ensures forall r :: r in c.results ==> !r.alreadySelected && !r.edfScheduled && r.notStarted == !f.computingDone(r)
  {
    for i := 0 to |c.results|
      invariant forall k :: 0 <= k < i ==>
                  !c.results[k].alreadySelected && !c.results[k].edfScheduled
                    && c.results[k].notStarted == !f.computingDone(c.results[k])
    {
      var rp := c.results[i];
      rp.alreadySelected, rp.edfScheduled, rp.notStarted := false, false, !f.computingDone(rp);
    }
  }

  method ResetProjects(c: ClientState, f: Forecast)
    modifies c.projects`nextRunnableResult, c.projects`deadlinesMissedCopy
    ensures forall p ::
              p in c.projects ==> p.nextRunnableResult == null && p.deadlinesMissedCopy == f.deadlinesMissed(p)
  {
    for i := 0 to |c.projects|
      invariant forall k :: 0 <= k < i ==>
                  c.projects[k].nextRunnableResult == null
                    && c.projects[k].deadlinesMissedCopy == f.deadlinesMissed(c.projects[k])
    {
      c.projects[i].nextRunnableResult := null;
      c.projects[i].deadlinesMissedCopy := f.deadlinesMissed(c.projects[i]);
    }
  }

  /** A result with a task counts as started. */
  method ResetTasks(c: ClientState)
    modifies c.tasks`tooLarge, (set t | t in c.tasks :: t.result)`notStarted
    ensures forall t :: t in c.tasks ==> !t.tooLarge && !t.result.notStarted
    ensures forall r: Result ::
              !HasTask(c.tasks, r) && allocated(r) && old(allocated(r)) ==> r.notStarted == old(r.notStarted)
  {
    for i := 0 to |c.tasks|
      invariant forall k :: 0 <= k < i ==> !c.tasks[k].tooLarge && !c.tasks[k].result.notStarted
    {
      c.tasks[i].tooLarge := false;
      c.tasks[i].result.notStarted := false;
    }
  }

  /** The temporary fields before the selection. */
  method ResetSelection(c: ClientState, f: Forecast)
    requires Consistent(c)
    modifies c.results`alreadySelected, c.results`edfScheduled, c.results`notStarted
    modifies c.projects`nextRunnableResult, c.projects`deadlinesMissedCopy, c.tasks`tooLarge
    ensures forall r :: r in c.results ==> !r.alreadySelected && !r.edfScheduled
    ensures NotStartedOk(c, f)
    ensures forall p ::
              p in c.projects ==> p.nextRunnableResult == null && p.deadlinesMissedCopy == f.deadlinesMissed(p)
    ensures forall t :: t in c.tasks ==> !t.tooLarge
  {
    ResetResults(c, f);
    ResetProjects(c, f);
    ResetTasks(c);
  }

  /** What the finished list is like.  It is what the picks list, in order: `early`
      are those of the loops for GPU jobs and by deadline, `log` those by priority.
      Each was the right one when it was made, and was listed exactly if it fitted;
      a loop ended because its resource was used up or no job was left for it. */
  ghost predicate RunListOk(c: ClientState, pr: ProcResources, env: Env, f: Forecast, s: Sums, list: seq<Result>,
                            early: seq<Pick>, log: seq<Pick>)
    reads c, c.projects, c.results, c.tasks`hasShm, c.tasks`taskState, c.tasks`schedulerState
    reads list`alreadySelected, ListedOf(early)`edfScheduled, JobsOf(early + log)`alreadySelected, pr
  {
    && Picking(c, pr, env, f, s, list, early, log) && EdfMarks(c, ListedOf(early)) && LastOver(c, env, early, log)
    && (StCpus(list) >= env.ncpus as real || (CpuJobsDone(c, env) && Rivals(c) == {}))
  }

  lemma EarlyStarts(c: ClientState, pr: ProcResources, env: Env, f: Forecast, s: Sums)
    requires Consistent(c) && RunnableOk(c, env) && s == SumsOf(c, env, f) && PrioritiesOk(c, env, f, s, [])
    requires pr.Accounts(c, [], env) && NotStartedOk(c, f)
    requires forall r :: r in c.results ==> !r.alreadySelected && !r.edfScheduled
    requires forall p :: p in c.projects ==> p.deadlinesMissedCopy == f.deadlinesMissed(p)
    ensures Early(c, pr, env, f, s, [], [])
  {
    hide PrioritiesOk, ProcResources.Accounts, Consistent, RunnableOk, NotStartedOk;
  }

  lemma PickingStarts(c: ClientState, pr: ProcResources, env: Env, f: Forecast, s: Sums, jobs: seq<Result>,
                      early: seq<Pick>)
    requires Early(c, pr, env, f, s, jobs, early) && InLoop(c, env, f, s, early, 2 * |c.coprocs|)
    requires AllEnded(c, env, f, s, early, 2 * |c.coprocs| + 1)
    requires forall p :: p in c.projects ==> p.nextRunnableResult == null
    ensures Picking(c, pr, env, f, s, jobs, early, []) && EdfMarks(c, jobs) && jobs == ListedOf(early)
    ensures Matches(c, env, LineupAfter(c, env, early, []))
  {
    hide Selecting, RightPicks, InOrder, EdfMarks, AllEnded, UpTo, LeftOver, MissesLeft, NotStartedOk;
    EarlySelection(c, pr, env, f, s, jobs, early);
    assert early + [] == early;
    forall r | r in JobsOf(early) ensures r in c.results {
      assert exists k :: 0 <= k < |early| && early[k].job == r;
      PicksAreJobs(c, env, f, s, early);
    }
  }

  lemma PicksAreJobs(c: ClientState, env: Env, f: Forecast, s: Sums, picks: seq<Pick>)
    requires RightPicks(c, env, f, s, picks)
    ensures forall r :: r in JobsOf(picks) ==> r in c.results
  {
    forall r | r in JobsOf(picks) ensures r in c.results {
      var k :| 0 <= k < |picks| && picks[k].job == r;
      assert RightPick(c, env, f, s, picks[..k], picks[k]);
    }
  }

  lemma RunListIsOk(c: ClientState, pr: ProcResources, env: Env, f: Forecast, s: Sums, list: seq<Result>,
                    early: seq<Pick>, log: seq<Pick>)
    requires Picking(c, pr, env, f, s, list, early, log) && EdfMarks(c, ListedOf(early)) && LastOver(c, env, early, log)
    requires StCpus(list) >= env.ncpus as real || (CpuJobsDone(c, env) && Rivals(c) == {})
    ensures RunListOk(c, pr, env, f, s, list, early, log)
  {
    hide Picking, EdfMarks, StCpus, CpuJobsDone, Rivals, LastOver;
  }

  method SelectJobs(c: ClientState, pr: ProcResources, env: Env, f: Forecast, s: Sums)
      returns (list: seq<Result>, ghost early: seq<Pick>, ghost log: seq<Pick>)
    requires Early(c, pr, env, f, s, [], []) && 0 < |c.coprocs|
    requires forall p :: p in c.projects ==> p.nextRunnableResult == null
    modifies pr, c.results`alreadySelected, c.results`edfScheduled
    modifies c.projects`nextRunnableResult, c.projects`recTemp, c.projects`schedPriority, c.projects`deadlinesMissedCopy
    ensures RunListOk(c, pr, env, f, s, list, early, log)
  {
    hide *;
    list, early := AddGpuAndEdfJobs(c, pr, env, f, s);
    ghost var jobs := list;
    PickingStarts(c, pr, env, f, s, jobs, early);
    list, log := AddByPriority(c, pr, env, f, s, list, early);
    RunListIsOk(c, pr, env, f, s, list, early, log);
  }

  /** `make_run_list`. */
  method MakeRunList(c: ClientState, env: Env, f: Forecast)
      returns (list: seq<Result>, pr: ProcResources, s: Sums, ghost early: seq<Pick>, ghost log: seq<Pick>)
    requires Consistent(c) && RunnableOk(c, env) && 0 < |c.coprocs|
    modifies c.results`alreadySelected, c.results`edfScheduled, c.results`notStarted, c.tasks`tooLarge
    modifies c.projects`resourceShareFrac, c.projects`recTemp, c.projects`schedPriority
    modifies c.projects`nextRunnableResult, c.projects`deadlinesMissedCopy
    ensures RunListOk(c, pr, env, f, s, list, early, log) && fresh(pr)
  {
    hide *;
    pr := new ProcResources(c, env);
    s := ProjectPriorityInit(c, env, f);
    ResetSelection(c, f);
    EarlyStarts(c, pr, env, f, s);
    list, early, log := SelectJobs(c, pr, env, f, s);
  }

  // ---- what a finished list is like -------------------------------------

  lemma FinishedKnows(c: ClientState, pr: ProcResources, env: Env, f: Forecast, s: Sums, list: seq<Result>,
                      early: seq<Pick>, log: seq<Pick>)
    requires RunListOk(c, pr, env, f, s, list, early, log)
    ensures Selecting(c, pr, env, f, s, list) && Consistent(c) && PrioritiesOk(c, env, f, s, list)
            && s == SumsOf(c, env, f)
    ensures list == ListedOf(early + log) && RightPicks(c, env, f, s, early + log) && AllButLast(c, env, f, s, early)
    ensures RightChoices(c, env, early, log) && LastOver(c, env, early, log)
    ensures Accounted(c, JobsOf(early + log)) && RivalsFrom(log, Rivals(c))
    ensures log != [] ==> DryBut(c, env, log[|log| - 1].job.project)
    ensures forall k :: 0 <= k < |log| ==> log[k].how.ByPriority? && !log[k].job.project.nonCpuIntensive
    ensures StCpus(list) >= env.ncpus as real || (CpuJobsDone(c, env) && Rivals(c) == {})
  {
    hide AllButLast, RightPicks, RightChoices, LastOver, PrioritiesOk, Consistent, Accounted, RivalsFrom, DryBut,
         Rivals,
         CpuJobsDone, ListOk;
  }

  /** There is only one list that the client's state allows. */
  lemma ListIsDetermined(c: ClientState, pr: ProcResources, env: Env, f: Forecast, s: Sums, list: seq<Result>,
                         early: seq<Pick>, log: seq<Pick>, early': seq<Pick>, log': seq<Pick>)
    requires RunListOk(c, pr, env, f, s, list, early, log) && AllPicks(c, env, f, s, early', log')
    ensures AllPicks(c, env, f, s, early, log) && s == SumsOf(c, env, f) && list == ListedOf(early' + log')
  {
    hide RunListOk, Selecting, AllButLast, RightPicks, RightChoices, LastOver;
    FinishedKnows(c, pr, env, f, s, list, early, log);
    PicksAreUnique(c, env, f, s, early, log, early', log');
  }

  /** Each job is on the list once, and may run. */
  lemma ListedOnce(c: ClientState, pr: ProcResources, env: Env, f: Forecast, s: Sums, list: seq<Result>,
                   early: seq<Pick>, log: seq<Pick>)
    requires RunListOk(c, pr, env, f, s, list, early, log)
    ensures Distinct(list)
    ensures forall r ::
              r in list ==> r in c.results && r in env.runnable && !r.project.nonCpuIntensive && r.alreadySelected
  {
    hide RunListOk, Consistent, PrioritiesOk, ProcResources.Accounts, RunnableOk;
    FinishedKnows(c, pr, env, f, s, list, early, log);
  }

  lemma RivalsCompete(c: ClientState, env: Env, f: Forecast, s: Sums, early: seq<Pick>, log: seq<Pick>, k: nat)
    requires RightPicks(c, env, f, s, early + log) && k < |log| && log[k].how.ByPriority?
    ensures forall q :: q in log[k].Rivals() ==> q in c.projects && Competes(c, env, q)
    ensures log[k].job.project in log[k].Rivals()
  {
    hide Competes, AdmitsAfter;
    PicksSplit(early, log, k);
    var before := (early + log)[..|early| + k];
    assert RightPick(c, env, f, s, before, (early + log)[|early| + k]);
    var entries := RivalEntries(c, log[k].Rivals(), f, s, ListedOf(before));
    var at: nat :| at < |c.projects| && c.projects[at] == log[k].job.project && FirstBest(entries, |c.projects|, at);
  }

  /** Proportional fairness of a finished list: a project from which no job was
      listed after a pick of its own has had no more work, for its share, than any
      project that was picked then or later, or that has a candidate still, but for
      what that pick added. */
  lemma ListIsFair(c: ClientState, pr: ProcResources, env: Env, f: Forecast, s: Sums, list: seq<Result>,
                   early: seq<Pick>, log: seq<Pick>, k: nat, q: Project)
    requires RunListOk(c, pr, env, f, s, list, early, log) && k < |log|
    requires forall m :: k < m < |log| && log[m].listed ==> log[m].job.project != log[k].job.project
    requires q in Rivals(c) || exists m :: k <= m < |log| && log[m].job.project == q
    ensures var p := log[k].job.project;
            p.resourceShare > 0.0 && q.resourceShare > 0.0 ==>
              p.recTemp / p.resourceShare <=
              q.recTemp / q.resourceShare
                + (if log[k].listed then Increment(log[k].job, f, s) else 0.0) / p.resourceShare
  {
    hide RunListOk, Selecting, RightPicks, AllButLast, Competes, Rivals, LogOk;
    FinishedKnows(c, pr, env, f, s, list, early, log);
    RivalsCompete(c, env, f, s, early, log, k);
    assert q in log[k].Rivals();
    LogIsOk(c, env, f, s, early, log);
    ListedConcat(early, log);
    LatestPickIsFair(ListedOf(early), log, k, q, ChargesOf(f, s));
    assert Priced(list, q, f, s) && Priced(list, log[k].job.project, f, s);
  }

  /** A project that has a job left at the end had a candidate at every pick. */
  lemma StillHasJobs(c: ClientState, pr: ProcResources, env: Env, f: Forecast, s: Sums, list: seq<Result>,
                     early: seq<Pick>, log: seq<Pick>, k: nat, q: Project)
    requires RunListOk(c, pr, env, f, s, list, early, log) && k < |log|
    requires q in c.projects && !q.nonCpuIntensive && !NothingLeft(c, q, Open(c, env))
    ensures q in log[k].Rivals()
  {
    hide RunListOk, Selecting, RightPicks, AllButLast, NothingLeft, Open;
    FinishedKnows(c, pr, env, f, s, list, early, log);
    if q.nextRunnableResult == null {
      assert log[|log| - 1].job.project == q;
    }
  }

  /** Each job on the list fitted after those before it; so a single-thread CPU job
      is listed only while these leave a CPU. */
  lemma EachJobFitted(c: ClientState, pr: ProcResources, env: Env, f: Forecast, s: Sums, list: seq<Result>,
                      early: seq<Pick>, log: seq<Pick>, i: nat)
    requires RunListOk(c, pr, env, f, s, list, early, log) && i < |list|
    ensures AdmitsAfter(c, list[..i], list[i], env, f)
    ensures !list[i].UsesCoprocs() && list[i].avgNcpus <= 1.0 ==> StCpus(list[..i]) < env.ncpus as real
  {
    hide RunListOk, Selecting, AllButLast, RightPicks, StCpus, TotalWss, RowsAfter, CostOf;
    FinishedKnows(c, pr, env, f, s, list, early, log);
    ListedFits(c, env, f, s, early + log, i);
  }

  /** A job that was looked at is on the list exactly if, after the jobs listed
      before it, it had the memory, was not backed off or waiting for shared memory,
      and had an allowed GPU instance with room, or its CPUs. */
  lemma ListedIff(c: ClientState, pr: ProcResources, env: Env, f: Forecast, s: Sums, list: seq<Result>,
                  early: seq<Pick>, log: seq<Pick>, k: nat)
    requires RunListOk(c, pr, env, f, s, list, early, log) && k < |early + log|
    ensures (early + log)[k].job.rscType < |c.coprocs|
    ensures var r, before := (early + log)[k].job, ListedOf((early + log)[..k]);
            (early + log)[k].listed <==>
              && !(f.shmemRetry && exists t :: t in c.tasks && t.result == r && !t.hasShm)
              && CostOf(c, r, env).wss <= env.ram - TotalWss(c, before, env) && !f.backedOff(r)
              && if r.rscType != 0 then
                   && !env.gpuSuspended
                   && exists i: nat :: i < c.coprocs[r.rscType].count && i !in r.excluded
                                       && RowsAfter(c, before)[r.rscType][i] + r.gpuUsage <= 1.0
                 else if r.avgNcpus > 1.0 then MtCpus(before) + r.avgNcpus <= env.ncpus as real
                 else StCpus(before) < env.ncpus as real
  {
    hide RunListOk, Selecting, AllButLast, RightPicks, StCpus, MtCpus, TotalWss, RowsAfter, CostOf, FitsAt;
    FinishedKnows(c, pr, env, f, s, list, early, log);
    PickIsJob(c, env, f, s, early + log, k);
    SelectingKnows(c, pr, env, f, s, list, (early + log)[k].job);
    PickFits(c, env, f, s, early + log, k);
    var r := (early + log)[k].job;
    SomeRoom(RowsAfter(c, ListedOf((early + log)[..k]))[r.rscType], r);
  }

  lemma RoomAt(row: seq<real>, r: Result, i: nat)
    ensures FitsAt(row, r, i) <==> i < |row| && i !in r.excluded && row[i] + r.gpuUsage <= 1.0
  {
  }

  lemma PickFits(c: ClientState, env: Env, f: Forecast, s: Sums, picks: seq<Pick>, k: nat)
    requires RightPicks(c, env, f, s, picks) && k < |picks|
    ensures picks[k].listed <==> AdmitsAfter(c, ListedOf(picks[..k]), picks[k].job, env, f)
  {
    hide AdmitsAfter, IsFirst, ListedOf;
    assert RightPick(c, env, f, s, picks[..k], picks[k]);
  }

  /** At the end no allowed instance has room for a GPU job that was looked at but
      is off the list though it is not backed off and has its memory. */
  lemma NoRoomForUnlisted(c: ClientState, pr: ProcResources, env: Env, f: Forecast, s: Sums, list: seq<Result>,
                          early: seq<Pick>, log: seq<Pick>, k: nat, i: nat)
    requires RunListOk(c, pr, env, f, s, list, early, log) && NoneNegative(c, list, env)
    requires k < |early + log| && !(early + log)[k].listed
    requires var r := (early + log)[k].job;
             && r.rscType != 0 && !env.gpuSuspended && !f.backedOff(r) && CostOf(c, r, env).wss <= pr.ramLeft
             && !(f.shmemRetry && exists t :: t in c.tasks && t.result == r && !t.hasShm)
             && r.rscType < |pr.usage| && i < |pr.usage[r.rscType]| && i !in r.excluded
    ensures pr.usage[(early + log)[k].job.rscType][i] + (early + log)[k].job.gpuUsage > 1.0
  {
    hide RunListOk, NoneNegative, CostOf;
    UnlistedDoesNotFit(c, pr, env, f, s, list, early, log, k);
    RoomAt(pr.usage[(early + log)[k].job.rscType], (early + log)[k].job, i);
  }

  /** A job that was picked but is not on the list does not fit. */
  lemma UnlistedDoesNotFit(c: ClientState, pr: ProcResources, env: Env, f: Forecast, s: Sums, list: seq<Result>,
                           early: seq<Pick>, log: seq<Pick>, k: nat)
    requires RunListOk(c, pr, env, f, s, list, early, log) && NoneNegative(c, list, env)
    requires k < |early + log| && !(early + log)[k].listed
    ensures (early + log)[k].job in c.results && (early + log)[k].job.rscType < |pr.usage|
    ensures !pr.Admits(c, (early + log)[k].job, env, f)
  {
    hide *;
    FinishedKnows(c, pr, env, f, s, list, early, log);
    UnlistedIsRefused(c, env, f, s, early + log, k);
    PickIsJob(c, env, f, s, early + log, k);
    SelectingKnows(c, pr, env, f, s, list, (early + log)[k].job);
  }

  lemma PickIsJob(c: ClientState, env: Env, f: Forecast, s: Sums, picks: seq<Pick>, k: nat)
    requires RightPicks(c, env, f, s, picks) && k < |picks|
    ensures picks[k].job in c.results
  {
    assert RightPick(c, env, f, s, picks[..k], picks[k]);
  }

  /** The loop by arrival leaves a GPU job only if its type was used up. */
  lemma GpuJobsLeft(c: ClientState, env: Env, f: Forecast, s: Sums, early: seq<Pick>, r: Result)
      returns (m: nat)
    requires AllButLast(c, env, f, s, early) && r in c.results && r.UsesCoprocs() && r.rscType < |c.coprocs|
    requires r in env.runnable && !r.nonCpuIntensive && r !in JobsOf(early)
    ensures m <= |early| && !GoesOn(c, ListedOf(early[..m]), Arrival(r.rscType), env)
  {
    hide RightPicks, GoesOn, ArrivalEntry;
    var n, loop := |c.coprocs|, 2 * r.rscType + 1;
    assert Ended(c, env, f, s, early, loop) && HowIn(n, loop) == Arrival(r.rscType);
    m :| 0 <= m <= |early| && UpTo(n, early[..m], loop) && Over(c, env, f, s, early[..m], HowIn(n, loop)) &&
      forall k :: m <= k < |early| ==> LoopOf(n, early[k].how) > loop;
    FewerJobs(early, m);
    StillWaiting(c, r, env, f, s, early[..m]);
  }

  lemma FewerJobs(picks: seq<Pick>, m: nat)
    requires m <= |picks|
    ensures JobsOf(picks[..m]) <= JobsOf(picks)
  {
    forall r | r in JobsOf(picks[..m]) ensures r in JobsOf(picks) {
      var k :| 0 <= k < m && picks[k].job == r;
    }
  }

  lemma StillWaiting(c: ClientState, r: Result, env: Env, f: Forecast, s: Sums, picks: seq<Pick>)
    requires r in env.runnable && !r.nonCpuIntensive && r !in JobsOf(picks)
    ensures ArrivalEntry(c, r, r.rscType, env, f, s, picks).In?
  {
    hide PriorityAfter;
  }

  /** A resource that was used up stays so. */
  lemma UsedUpStays(c: ClientState, pr: ProcResources, env: Env, f: Forecast, s: Sums, list: seq<Result>,
                    picks: seq<Pick>, m: nat, rt: nat)
    requires Selecting(c, pr, env, f, s, list) && list == ListedOf(picks) && NoneNegative(c, list, env) && m <= |picks|
    requires 0 < rt < |c.coprocs| && !GoesOn(c, ListedOf(picks[..m]), Arrival(rt), env)
    ensures pr.Full(rt)
  {
    hide Selecting, RowsAfter, StCpus, MtCpus, TotalWss, CostOf;
    ListedSplit(picks, m);
    var more := ListedOf(picks[m..]);
    assert forall r :: r in more ==> r in list;
    SumsGrow(c, ListedOf(picks[..m]), more, env);
    SelectingOk(c, pr, env, f, s, list);
  }

  /** A CPU job with a task that is not to run, or that has been its project's
      candidate and lost its place. */
  ghost predicate HeldBack(c: ClientState, r: Result)
    reads c`tasks, c.tasks`taskState, r`alreadySelected
  {
    !r.UsesCoprocs() && exists t :: t in c.tasks && t.result == r && (r.alreadySelected || !RunnableTask(t.taskState))
  }

  /** A CPU job that no pick has looked at when no candidate is left is held back. */
  lemma CpuJobsLeft(c: ClientState, env: Env, done: set<Result>, r: Result)
    requires Consistent(c) && CpuJobsDone(c, env) && Rivals(c) == {} && Accounted(c, done)
    requires r in c.results && r in env.runnable && !r.nonCpuIntensive && !r.UsesCoprocs() && r !in done
    ensures HeldBack(c, r)
  {
    var p := r.project;
    assert p in c.projects && !p.nonCpuIntensive && NothingLeft(c, p, Open(c, env)) && p !in Rivals(c);
    assert r in Open(c, env) <==> !r.alreadySelected;
    assert HasTask(c.tasks, r);
    var t :| t in c.tasks && t.result == r;
    assert r.alreadySelected || !RunnableTask(t.taskState);
  }

  lemma {:induction false} ListedIsOn(picks: seq<Pick>, k: nat)
    requires k < |picks| && picks[k].listed
    ensures picks[k].job in ListedOf(picks)
  {
    if k < |picks| - 1 {
      ListedIsOn(picks[..|picks| - 1], k);
    }
  }

  lemma UnlistedPick(picks: seq<Pick>, r: Result) returns (k: nat)
    requires r in JobsOf(picks) && r !in ListedOf(picks)
    ensures k < |picks| && picks[k].job == r && !picks[k].listed
  {
    k :| k < |picks| && picks[k].job == r;
    if picks[k].listed {
      ListedIsOn(picks, k);
    }
  }

  /** Nothing that still fits was passed over: a runnable job off the list does not
      fit, or its GPU type or the CPUs are used up, or its task holds it back. */
  lemma NothingPassedOver(c: ClientState, pr: ProcResources, env: Env, f: Forecast, s: Sums, list: seq<Result>,
                          early: seq<Pick>, log: seq<Pick>, r: Result)
    requires RunListOk(c, pr, env, f, s, list, early, log) && NoneNegative(c, list, env)
    requires r in c.results && r in env.runnable && !r.nonCpuIntensive && r !in list
    ensures r.rscType < |pr.usage|
    ensures !pr.Admits(c, r, env, f) || (if r.UsesCoprocs() then pr.Full(r.rscType) else pr.StopScanCpu())
            || HeldBack(c, r)
  {
    hide *;
    FinishedKnows(c, pr, env, f, s, list, early, log);
    SelectingKnows(c, pr, env, f, s, list, r);
    if r in JobsOf(early + log) {
      var k := UnlistedPick(early + log, r);
      UnlistedDoesNotFit(c, pr, env, f, s, list, early, log, k);
    } else if r.UsesCoprocs() {
      GpuJobPassedOver(c, pr, env, f, s, list, early, log, r);
    } else if StCpus(list) < env.ncpus as real {
      CpuJobsLeft(c, env, JobsOf(early + log), r);
    }
  }

  lemma GpuTypeIs(c: ClientState, r: Result)
    requires Consistent(c) && r in c.results && r.UsesCoprocs()
    ensures 0 < r.rscType < |c.coprocs|
  {
  }

  lemma GpuJobPassedOver(c: ClientState, pr: ProcResources, env: Env, f: Forecast, s: Sums, list: seq<Result>,
                         early: seq<Pick>, log: seq<Pick>, r: Result)
    requires RunListOk(c, pr, env, f, s, list, early, log) && NoneNegative(c, list, env)
    requires r in c.results && r in env.runnable && !r.nonCpuIntensive && r.UsesCoprocs() && r !in JobsOf(early + log)
    ensures pr.Full(r.rscType)
  {
    hide *;
    FinishedKnows(c, pr, env, f, s, list, early, log);
    GpuTypeIs(c, r);
    assert (early + log)[..|early|] == early;
    FewerJobs(early + log, |early|);
    var m := GpuJobsLeft(c, env, f, s, early, r);
    assert (early + log)[..m] == early[..m];
    UsedUpStays(c, pr, env, f, s, list, early + log, m, r.rscType);
  }
}
