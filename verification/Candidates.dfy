/** `assign_results_to_projects` (client/cpu_sched.cpp:303-361): give each
    project a candidate CPU job. */
module Candidates {
  import opened Lists
  import opened ClientTypes
  import opened Client
  import opened Scheduler

  /** Lists refer to each other, and hold each task's result and each project once. */
  ghost predicate Consistent(c: ClientState)
    reads c`tasks, c`results, c`projects
  {
    OneTaskPerResult(c.tasks) && (forall t :: t in c.tasks ==> t.result in c.results) && ResultsOk(c)
  }

  ghost predicate ResultsOk(c: ClientState)
    reads c`results, c`projects
  {
    && (forall r :: r in c.results ==>
          r.project in c.projects && r.rscType < |c.coprocs| && (r.project.nonCpuIntensive ==> r.nonCpuIntensive))
    && Distinct(c.projects)
  }

  predicate CpuEligible(r: Result, env: Env)
    reads r`alreadySelected
  {
    !r.alreadySelected && !r.UsesCoprocs() && r in env.runnable
  }

  /** `ACTIVE_TASK::runnable` and `process_exists`. */
  predicate RunnableTask(s: TaskState) {
    s in {Uninitialized, Executing, Suspended}
  }

  predicate ProcessExists(s: TaskState) {
    s in {Executing, Suspended, AbortPending, QuitPending}
  }

  predicate Offers(t: ActiveTask, env: Env)
    reads t`taskState, t.result`alreadySelected
  {
    RunnableTask(t.taskState) && CpuEligible(t.result, env)
  }

  /** The test that lets a task take over from the candidate of another. */
  predicate Better(t: ActiveTask, u: ActiveTask)
    reads t`taskState, t`schedulerState, u`taskState, u`schedulerState
  {
    || (u.taskState.Uninitialized? && ProcessExists(t.taskState))
    || (u.schedulerState.SchedPreempted? && t.schedulerState.SchedScheduled?)
  }

  ghost predicate TakesOver(c: ClientState, t: ActiveTask, best: Result)
    reads c`tasks, c.tasks`taskState, c.tasks`schedulerState, t`taskState, t`schedulerState
  {
    exists u :: u in c.tasks && u.result == best && Better(t, u)
  }

  /** The candidate of `p` after the first `n` tasks. */
  ghost function Chosen(c: ClientState, env: Env, p: Project, start: Result?, n: nat): (best: Result?)
    requires n <= |c.tasks|
    reads c`tasks, c`results, c.tasks`taskState, c.tasks`schedulerState,
          (set t | t in c.tasks :: t.result)`alreadySelected
  {
    if n == 0 then start
    else
      var best, t := Chosen(c, env, p, start, n - 1), c.tasks[n - 1];
      if t.result.project == p && Offers(t, env) && (best == null || TakesOver(c, t, best)) then t.result else best
  }

  lemma {:induction false} ChosenHasTask(c: ClientState, env: Env, p: Project, start: Result?, n: nat)
    requires n <= |c.tasks|
    ensures var best := Chosen(c, env, p, start, n);
              best == start || (best != null && best.project == p && HasTask(c.tasks, best) && CpuEligible(best, env))
    ensures start != null ==> Chosen(c, env, p, start, n) != null
    ensures forall k :: 0 <= k < n && c.tasks[k].result.project == p && Offers(c.tasks[k], env) ==>
              Chosen(c, env, p, start, n) != null
  {
    if n > 0 {
      ChosenHasTask(c, env, p, start, n - 1);
    }
  }

  /** CPU jobs that can still become candidates, if their task allows it. */
  ghost function Open(c: ClientState, env: Env): set<Result>
    reads c`results, c.results`alreadySelected
  {
    set r | r in c.results && CpuEligible(r, env)
  }

  ghost function CpuJobs(rs: set<Result>, env: Env): set<Result> {
    set r | r in rs && !r.UsesCoprocs() && r in env.runnable
  }

  ghost predicate NoTaskOpen(c: ClientState, p: Project, open: set<Result>)
    reads c`tasks, c.tasks`taskState
  {
    forall t :: t in c.tasks && t.result.project == p && RunnableTask(t.taskState) ==> t.result !in open
  }

  /** A candidate without a task means that the project has no task to offer:
      this is why the lookup of the candidate's task never fails. */
  ghost predicate TasksFirst(c: ClientState, p: Project, best: Result?, open: set<Result>)
    reads c`tasks, c.tasks`taskState
  {
    best != null && !HasTask(c.tasks, best) ==> NoTaskOpen(c, p, open)
  }

  /** One task of the first scan. */
  method OfferTask(c: ClientState, atp: ActiveTask, env: Env)
    requires Consistent(c) && atp in c.tasks
    requires atp.result.project.nextRunnableResult != null && Offers(atp, env) ==>
               HasTask(c.tasks, atp.result.project.nextRunnableResult)
    modifies atp.result.project`nextRunnableResult
    ensures atp.result.project.nextRunnableResult ==
            var best := old(atp.result.project.nextRunnableResult);
            if Offers(atp, env) && (best == null || TakesOver(c, atp, best)) then atp.result else best
  {
    if !RunnableTask(atp.taskState) { return; }
    var rp := atp.result;
    if rp.alreadySelected || rp.UsesCoprocs() || rp !in env.runnable { return; }
    var project := rp.project;
    if project.nextRunnableResult == null {
      project.nextRunnableResult := rp;
      return;
    }
    var nextAtp := c.LookupActiveTaskByResult(project.nextRunnableResult);
    assert Better(atp, nextAtp) <==> TakesOver(c, atp, project.nextRunnableResult) by {
      forall u | u in c.tasks && u.result == project.nextRunnableResult ensures u == nextAtp {
      }
    }
    if (nextAtp.taskState == Uninitialized && ProcessExists(atp.taskState))
       || (nextAtp.schedulerState == SchedPreempted && atp.schedulerState == SchedScheduled) {
      project.nextRunnableResult := rp;
    }
  }

  lemma CandidateHasTask(c: ClientState, env: Env, p: Project, start: Result?, n: nat)
    requires Consistent(c) && n < |c.tasks| && c.tasks[n].result.project == p && TasksFirst(c, p, start, Open(c, env))
    ensures var best := Chosen(c, env, p, start, n); best != null && Offers(c.tasks[n], env) ==> HasTask(c.tasks, best)
  {
    ChosenHasTask(c, env, p, start, n);
  }

  /** The first scan: jobs that have a task. */
  method OfferTasks(c: ClientState, env: Env)
    requires Consistent(c) && forall p :: p in c.projects ==> TasksFirst(c, p, p.nextRunnableResult, Open(c, env))
    modifies c.projects`nextRunnableResult
    ensures forall p ::
              p in c.projects ==> p.nextRunnableResult == Chosen(c, env, p, old(p.nextRunnableResult), |c.tasks|)
  {
    hide HasTask, Open, TasksFirst, NoTaskOpen;
    for i := 0 to |c.tasks|
      invariant forall p :: p in c.projects ==> p.nextRunnableResult == Chosen(c, env, p, old(p.nextRunnableResult), i)
    {
      var p := c.tasks[i].result.project;
      CandidateHasTask(c, env, p, old(p.nextRunnableResult), i);
      OfferTask(c, c.tasks[i], env);
    }
  }

  // ---- jobs without a task ----------------------------------------------

  ghost predicate OffersTaskless(c: ClientState, r: Result, env: Env)
    reads c`tasks, r`alreadySelected
  {
    CpuEligible(r, env) && !HasTask(c.tasks, r)
  }

  /** The first of the first `n` jobs of `p` that has no task. */
  ghost function FirstTaskless(c: ClientState, env: Env, p: Project, n: nat): (r: Result?)
    requires n <= |c.results|
    reads c`tasks, c`results, c.results`alreadySelected
  {
    if n == 0 then null
    else
      var found := FirstTaskless(c, env, p, n - 1);
      if found == null && c.results[n - 1].project == p && OffersTaskless(c, c.results[n - 1], env)
        then c.results[n - 1] else found
  }

  lemma {:induction false} TasklessIsFirst(c: ClientState, env: Env, p: Project, n: nat)
    requires n <= |c.results|
    ensures var r := FirstTaskless(c, env, p, n);
            if r == null then forall k :: 0 <= k < n && c.results[k].project == p ==>
              !OffersTaskless(c, c.results[k], env)
            else exists i :: 0 <= i < n && c.results[i] == r && r.project == p && OffersTaskless(c, r, env) &&
                   forall k :: 0 <= k < i && c.results[k].project == p ==> !OffersTaskless(c, c.results[k], env)
  {
    if n > 0 {
      TasklessIsFirst(c, env, p, n - 1);
    }
  }

  method OfferResult(c: ClientState, rp: Result, env: Env)
    requires OneTaskPerResult(c.tasks)
    modifies rp.project`nextRunnableResult
    ensures rp.project.nextRunnableResult ==
            if old(rp.project.nextRunnableResult) == null && OffersTaskless(c, rp, env) then rp
              else old(rp.project.nextRunnableResult)
  {
    if rp.alreadySelected || rp.UsesCoprocs() { return; }
    var atp := c.LookupActiveTaskByResult(rp);
    if atp != null { return; }
    if rp !in env.runnable { return; }
    if rp.project.nextRunnableResult != null { return; }
    rp.project.nextRunnableResult := rp;
  }

  function OrElse(a: Result?, b: Result?): Result? {
    if a != null then a else b
  }

  /** The second scan: jobs without a task, for projects that have no candidate yet. */
  method OfferResults(c: ClientState, env: Env)
    requires Consistent(c)
    modifies c.projects`nextRunnableResult
    ensures forall p :: p in c.projects ==>
              p.nextRunnableResult == OrElse(old(p.nextRunnableResult), FirstTaskless(c, env, p, |c.results|))
  {
    for i := 0 to |c.results|
      invariant forall p :: p in c.projects ==>
                  p.nextRunnableResult == OrElse(old(p.nextRunnableResult), FirstTaskless(c, env, p, i))
    {
      assert c.results[i] in c.results;
      OfferResult(c, c.results[i], env);
    }
  }

  // ---- marking the candidates -------------------------------------------

  /** Results that the pass may still pick. */
  ghost function Unselected(c: ClientState): set<Result>
    reads c`results, c.results`alreadySelected
  {
    set r | r in c.results && !r.alreadySelected
  }

  /** Projects that have a candidate. */
  ghost function Pending(c: ClientState): set<Project>
    reads c`projects, c.projects`nextRunnableResult
  {
    set p | p in c.projects && p.nextRunnableResult != null
  }

  /** A project's candidate is a listed job of its own. */
  ghost predicate OwnCandidates(c: ClientState)
    reads c`projects, c`results, c.projects`nextRunnableResult
  {
    forall p :: p in c.projects && p.nextRunnableResult != null ==>
      p.nextRunnableResult in c.results && p.nextRunnableResult.project == p
  }

  method MarkCandidate(c: ClientState, project: Project)
    requires project.nextRunnableResult != null ==> project.nextRunnableResult in c.results
    modifies c.results`alreadySelected
    ensures Unselected(c) == old(Unselected(c))
            - if project.nextRunnableResult == null then {} else {project.nextRunnableResult}
  {
    if project.nextRunnableResult != null {
      project.nextRunnableResult.alreadySelected := true;
    }
  }

  /** The candidates of some projects. */
  ghost function CandidatesOf(c: ClientState, projects: set<Project>): set<Result>
    reads c`results, projects`nextRunnableResult
  {
    set r | r in c.results && r.project in projects && r.project.nextRunnableResult == r
  }

  ghost function Front(projects: seq<Project>, n: nat): set<Project>
    requires n <= |projects|
  {
    set p | p in projects[..n]
  }

  ghost function CandidateSet(p: Project): set<Result>
    reads p`nextRunnableResult
  {
    if p.nextRunnableResult == null then {} else {p.nextRunnableResult}
  }

  lemma CandidatesNext(c: ClientState, n: nat)
    requires Consistent(c) && OwnCandidates(c) && n < |c.projects|
    ensures CandidatesOf(c, Front(c.projects, n + 1)) ==
              CandidatesOf(c, Front(c.projects, n)) + CandidateSet(c.projects[n])
    ensures CandidatesOf(c, Front(c.projects, n)) !! CandidateSet(c.projects[n])
  {
    assert c.projects[..n + 1] == c.projects[..n] + [c.projects[n]];
    var p := c.projects[n];
    assert p.nextRunnableResult != null ==> p.nextRunnableResult.project == p;
  }

  /** Each of some projects with different candidates accounts for one of them. */
  lemma {:induction false} NewlyCost(newly: set<Project>, was: set<Result>, marked: set<Result>)
    requires forall p :: p in newly ==> p.nextRunnableResult != null && p.nextRunnableResult.project == p
    requires forall p :: p in newly ==> p.nextRunnableResult in was * marked
    ensures |was - marked| + |newly| <= |was|
    decreases |newly|
  {
    if newly == {} {
      assert was == (was - marked) + (was * marked);
    } else {
      var p :| p in newly;
      var x: Result := p.nextRunnableResult;
      NewlyCost(newly - {p}, was - {x}, marked);
      assert was == (was - {x}) + {x} && (was - {x}) - marked == was - marked;
    }
  }

  ghost function AllCandidates(c: ClientState): set<Result>
    reads c`projects, c`results, c.projects`nextRunnableResult
  {
    set r | r in c.results && r.project in c.projects && r.project.nextRunnableResult == r
  }

  method MarkAll(c: ClientState)
    requires Consistent(c) && OwnCandidates(c)
    modifies c.results`alreadySelected
    ensures Unselected(c) == old(Unselected(c) - AllCandidates(c))
  {
    for i := 0 to |c.projects|
      invariant Unselected(c) == old(Unselected(c)) - CandidatesOf(c, Front(c.projects, i))
    {
      CandidatesNext(c, i);
      MarkCandidate(c, c.projects[i]);
    }
    assert c.projects[..|c.projects|] == c.projects;
    assert CandidatesOf(c, Front(c.projects, |c.projects|)) == old(AllCandidates(c));
  }

  /** The third scan: mark the candidates.  Each project in `newly`, which got
      its candidate just now, costs one unselected result. */
  method MarkCandidates(c: ClientState, ghost newly: set<Project>)
    requires Consistent(c) && OwnCandidates(c)
    requires forall p ::
               p in newly ==> p in c.projects && p.nextRunnableResult != null && !p.nextRunnableResult.alreadySelected
    modifies c.results`alreadySelected
    ensures Unselected(c) == old(Unselected(c) - AllCandidates(c))
    ensures |Unselected(c)| + |newly| <= old(|Unselected(c)|)
  {
    ghost var was, marked := Unselected(c), AllCandidates(c);
    NewlyCost(newly, was, marked);
    MarkAll(c);
  }

  // ---- the whole step ---------------------------------------------------

  /** The candidate that a project has after the step. */
  ghost function Picked(c: ClientState, env: Env, p: Project): Result?
    reads c`tasks, c`results, c.tasks`taskState, c.tasks`schedulerState,
          (set t | t in c.tasks :: t.result)`alreadySelected
    reads c.results`alreadySelected, p`nextRunnableResult
  {
    OrElse(Chosen(c, env, p, p.nextRunnableResult, |c.tasks|), FirstTaskless(c, env, p, |c.results|))
  }

  /** What holds between two steps: a project's candidate is a listed job of
      its own that is selected, and has no task only if no task is open. */
  ghost predicate CandidateOk(c: ClientState, env: Env, p: Project, r: Result?, open: set<Result>)
    reads c`tasks, c`results, c.tasks`taskState
  {
    && (r != null ==> r in c.results && r.project == p && !r.UsesCoprocs() && r in env.runnable && r !in open)
    && TasksFirst(c, p, r, open)
  }

  ghost predicate CandidatesOk(c: ClientState, env: Env)
    reads c`tasks, c`results, c`projects, c.projects`nextRunnableResult, c.results`alreadySelected, c.tasks`taskState
  {
    forall p :: p in c.projects ==> CandidateOk(c, env, p, p.nextRunnableResult, Open(c, env))
  }

  /** Nothing is left that could become a candidate of the project. */
  ghost predicate NothingLeft(c: ClientState, p: Project, open: set<Result>)
    reads c`tasks, c`results, c.tasks`taskState
  {
    NoTaskOpen(c, p, open) && forall r :: r in c.results && r.project == p && !HasTask(c.tasks, r) ==> r !in open
  }

  /** What the new candidate of a project is like; `had` tells whether there
      was one before. */
  ghost predicate GoodPick(c: ClientState, env: Env, p: Project, had: bool, r: Result?, open: set<Result>)
    reads c`tasks, c`results, c.tasks`taskState
  {
    && (had ==> r != null) && (r == null ==> NothingLeft(c, p, open)) && (r != null && !had ==> r in open)
    && (r != null ==> r in c.results && r.project == p && !r.UsesCoprocs() && r in env.runnable)
    && TasksFirst(c, p, r, open)
  }

  lemma PickedIsGood(c: ClientState, env: Env, p: Project)
    requires Consistent(c) && CandidatesOk(c, env) && p in c.projects
    ensures GoodPick(c, env, p, p.nextRunnableResult != null, Picked(c, env, p), Open(c, env))
  {
    assert CandidateOk(c, env, p, p.nextRunnableResult, Open(c, env));
    ChosenHasTask(c, env, p, p.nextRunnableResult, |c.tasks|);
    TasklessIsFirst(c, env, p, |c.results|);
  }

  /** Marking candidates only closes jobs, and closes every candidate. */
  lemma PickIsOk(c: ClientState, env: Env, p: Project, had: bool, r: Result?, open: set<Result>, now: set<Result>)
    requires GoodPick(c, env, p, had, r, open) && now <= open && r !in now
    ensures CandidateOk(c, env, p, r, now) && (r == null ==> NothingLeft(c, p, now))
  {
  }

  lemma {:induction false} ReplacedHasTask(c: ClientState, env: Env, p: Project, start: Result?, n: nat)
    requires n <= |c.tasks|
    ensures start == null || Chosen(c, env, p, start, n) == start || HasTask(c.tasks, start)
  {
    if n > 0 {
      ReplacedHasTask(c, env, p, start, n - 1);
    }
  }

  /** A candidate that loses its place has a task. */
  lemma PickedKeeps(c: ClientState, env: Env, p: Project)
    ensures p.nextRunnableResult != null ==>
              Picked(c, env, p) != null
                && (Picked(c, env, p) == p.nextRunnableResult || HasTask(c.tasks, p.nextRunnableResult))
  {
    ChosenHasTask(c, env, p, p.nextRunnableResult, |c.tasks|);
    ReplacedHasTask(c, env, p, p.nextRunnableResult, |c.tasks|);
  }

  // ---- why a job with a task is the candidate ---------------------------

  /** The task's job is one of the project's that can become the candidate. */
  ghost predicate CanOffer(t: ActiveTask, env: Env, p: Project)
    reads t`taskState, t.result`alreadySelected
  {
    && t.result.project == p && t.taskState in {Uninitialized, Executing, Suspended}
    && !t.result.alreadySelected && t.result.rscType == 0 && t.result in env.runnable
  }

  /** The task has a process and the candidate's is uninitialized, or the task is
      scheduled and the candidate's is preempted. */
  ghost predicate GoesBefore(c: ClientState, t: ActiveTask, best: Result)
    reads c`tasks, c.tasks`taskState, c.tasks`schedulerState, t`taskState, t`schedulerState
  {
    exists u :: u in c.tasks && u.result == best &&
      ((u.taskState == Uninitialized && t.taskState in {Executing, Suspended, AbortPending, QuitPending})
       || (u.schedulerState == SchedPreempted && t.schedulerState == SchedScheduled))
  }

  /** No task from the `k`-th on goes before the candidate. */
  ghost predicate NoneGoesBefore(c: ClientState, env: Env, p: Project, best: Result, k: nat, n: nat)
    requires n <= |c.tasks|
    reads c`tasks, c`results, c.tasks`taskState, c.tasks`schedulerState,
          (set t | t in c.tasks :: t.result)`alreadySelected
  {
    forall m :: k <= m < n && CanOffer(c.tasks[m], env, p) ==> !GoesBefore(c, c.tasks[m], best)
  }

  /** The `k`-th task is the first to offer a job, or goes before the candidate there was. */
  ghost predicate ComesIn(c: ClientState, env: Env, p: Project, start: Result?, k: nat)
    requires k < |c.tasks|
    reads c`tasks, c`results, c.tasks`taskState, c.tasks`schedulerState,
          (set t | t in c.tasks :: t.result)`alreadySelected
  {
    && CanOffer(c.tasks[k], env, p)
    && ((start == null && forall m :: 0 <= m < k ==> !CanOffer(c.tasks[m], env, p))
        || (start != null && GoesBefore(c, c.tasks[k], start))
        || exists m :: 0 <= m < k && CanOffer(c.tasks[m], env, p) && GoesBefore(c, c.tasks[k], c.tasks[m].result))
  }

  lemma OffersIs(t: ActiveTask, env: Env, p: Project)
    ensures CanOffer(t, env, p) <==> t.result.project == p && Offers(t, env)
  {
  }

  lemma TakesOverIs(c: ClientState, t: ActiveTask, best: Result)
    ensures GoesBefore(c, t, best) <==> TakesOver(c, t, best)
  {
    if u :| u in c.tasks && u.result == best && Better(t, u) {
      assert GoesBefore(c, t, best);
    }
  }

  /** A candidate stays until a task goes before it, and only then. */
  lemma {:induction false} CandidateStands(c: ClientState, env: Env, p: Project, start: Result?, n: nat)
    requires n <= |c.tasks|
    ensures var best := Chosen(c, env, p, start, n);
            || (best == start == null && forall m :: 0 <= m < n ==> !CanOffer(c.tasks[m], env, p))
            || (best != null && best == start && NoneGoesBefore(c, env, p, best, 0, n))
            || exists k :: 0 <= k < n && best == c.tasks[k].result && ComesIn(c, env, p, start, k)
                           && NoneGoesBefore(c, env, p, best, k + 1, n)
  {
    if n > 0 {
      CandidateStands(c, env, p, start, n - 1);
      var was, t := Chosen(c, env, p, start, n - 1), c.tasks[n - 1];
      OffersIs(t, env, p);
      if was != null { TakesOverIs(c, t, was); }
    }
  }

  /** Without one, the candidate is the first open job of the project that has no task. */
  lemma FirstOpenJob(c: ClientState, env: Env, p: Project)
    ensures var r := FirstTaskless(c, env, p, |c.results|);
            r != null ==>
              exists i :: 0 <= i < |c.results| && c.results[i] == r && OpenWithoutTask(c, env, p, c.results[i])
                          && forall k :: 0 <= k < i ==> !OpenWithoutTask(c, env, p, c.results[k])
    ensures FirstTaskless(c, env, p, |c.results|) == null ==>
              forall k :: 0 <= k < |c.results| ==> !OpenWithoutTask(c, env, p, c.results[k])
  {
    TasklessIsFirst(c, env, p, |c.results|);
    forall k | 0 <= k < |c.results|
      ensures OpenWithoutTask(c, env, p, c.results[k]) <==>
                c.results[k].project == p && OffersTaskless(c, c.results[k], env)
    {
    }
  }

  ghost predicate OpenWithoutTask(c: ClientState, env: Env, p: Project, r: Result)
    reads c`tasks, r`alreadySelected
  {
    && r.project == p && !r.alreadySelected && r.rscType == 0 && r in env.runnable
    && !exists t :: t in c.tasks && t.result == r
  }

  /** The two scans. */
  method OfferJobs(c: ClientState, env: Env)
    requires Consistent(c) && CandidatesOk(c, env)
    modifies c.projects`nextRunnableResult
    ensures forall p :: p in c.projects ==> p.nextRunnableResult == old(Picked(c, env, p))
    ensures forall p ::
              p in c.projects ==> GoodPick(c, env, p, p in old(Pending(c)), p.nextRunnableResult, Open(c, env))
  {
    hide GoodPick, NothingLeft, FirstTaskless, Chosen, HasTask, NoTaskOpen, CpuEligible;
    forall p | p in c.projects
      ensures GoodPick(c, env, p, p.nextRunnableResult != null, Picked(c, env, p), Open(c, env))
    {
      PickedIsGood(c, env, p);
    }
    OfferTasks(c, env);
    OfferResults(c, env);
  }

  lemma GoodPicksAreOwn(c: ClientState, env: Env, before: set<Project>)
    requires forall p :: p in c.projects ==> GoodPick(c, env, p, p in before, p.nextRunnableResult, Open(c, env))
    ensures OwnCandidates(c)
    ensures before <= Pending(c) || !(before <= set p | p in c.projects)
  {
  }

  lemma OpenIsUnselected(c: ClientState, env: Env)
    ensures Open(c, env) == CpuJobs(Unselected(c), env)
  {
  }

  method MarkOpen(c: ClientState, env: Env, ghost newly: set<Project>)
    requires Consistent(c) && OwnCandidates(c)
    requires forall p ::
               p in newly ==> p in c.projects && p.nextRunnableResult != null && p.nextRunnableResult in Open(c, env)
    modifies c.results`alreadySelected
    ensures Open(c, env) == old(Open(c, env) - AllCandidates(c))
    ensures Unselected(c) == old(Unselected(c) - AllCandidates(c))
    ensures |Unselected(c)| + |newly| <= old(|Unselected(c)|)
  {
    OpenIsUnselected(c, env);
    MarkCandidates(c, newly);
    OpenIsUnselected(c, env);
  }

  ghost predicate GoodPicks(c: ClientState, env: Env, before: set<Project>, open: set<Result>)
    reads c`tasks, c`results, c`projects, c.tasks`taskState, c.projects`nextRunnableResult
  {
    forall p :: p in c.projects ==> GoodPick(c, env, p, p in before, p.nextRunnableResult, open)
  }

  ghost predicate Covered(c: ClientState, marked: set<Result>)
    reads c`projects, c.projects`nextRunnableResult
  {
    forall p :: p in c.projects && p.nextRunnableResult != null ==> p.nextRunnableResult in marked
  }

  lemma PicksAreOk(c: ClientState, env: Env, before: set<Project>, open: set<Result>, marked: set<Result>,
                   now: set<Result>)
    requires GoodPicks(c, env, before, open) && Covered(c, marked) && now == open - marked
    ensures forall p :: p in c.projects ==> CandidateOk(c, env, p, p.nextRunnableResult, now)
    ensures forall p :: p in c.projects && p.nextRunnableResult == null ==> NothingLeft(c, p, now)
  {
    forall p | p in c.projects
      ensures CandidateOk(c, env, p, p.nextRunnableResult, now)
              && (p.nextRunnableResult == null ==> NothingLeft(c, p, now))
    {
      PickIsOk(c, env, p, p in before, p.nextRunnableResult, open, now);
    }
  }

  /** Marking after the scans. */
  method MarkPicks(c: ClientState, env: Env, ghost before: set<Project>)
    requires Consistent(c) && GoodPicks(c, env, before, Open(c, env)) && OwnCandidates(c)
    modifies c.results`alreadySelected
    ensures CandidatesOk(c, env)
    ensures Unselected(c) <= old(Unselected(c)) && forall p :: p in c.projects ==>
              p.nextRunnableResult !in Unselected(c)
    ensures forall r :: r in old(Unselected(c)) && r !in Unselected(c) ==>
              r.project in c.projects && r.project.nextRunnableResult == r
    ensures forall p :: p in c.projects && p.nextRunnableResult == null ==> NothingLeft(c, p, Open(c, env))
    ensures |Unselected(c)| + old(|Pending(c) - before|) <= old(|Unselected(c)|)
  {
    ghost var open, marked := Open(c, env), AllCandidates(c);
    assert Covered(c, marked);
    MarkOpen(c, env, Pending(c) - before);
    PicksAreOk(c, env, before, open, marked, Open(c, env));
  }

  /** The two scans never take a candidate away. */
  method OfferAll(c: ClientState, env: Env)
    requires Consistent(c) && CandidatesOk(c, env)
    modifies c.projects`nextRunnableResult
    ensures forall p :: p in c.projects ==> p.nextRunnableResult == old(Picked(c, env, p))
    ensures GoodPicks(c, env, old(Pending(c)), Open(c, env)) && OwnCandidates(c) && old(Pending(c)) <= Pending(c)
  {
    hide Picked, GoodPick, CandidatesOk, Consistent;
    ghost var before := Pending(c);
    OfferJobs(c, env);
    GoodPicksAreOwn(c, env, before);
  }

  lemma SizeOfUnion<T>(a: set<T>, b: set<T>)
    requires a <= b
    ensures |b| == |a| + |b - a|
  {
    assert b == a + (b - a);
  }

  lemma NoneIsLeft(c: ClientState, env: Env)
    requires Consistent(c)
    requires forall p :: p in c.projects && p.nextRunnableResult == null ==> NothingLeft(c, p, Open(c, env))
    ensures forall t ::
              t in c.tasks && t.result.project in c.projects && t.result.project.nextRunnableResult == null ==>
              !CanOffer(t, env, t.result.project)
    ensures forall r :: r in c.results && r.project in c.projects && r.project.nextRunnableResult == null ==>
              !OpenWithoutTask(c, env, r.project, r)
  {
    forall t | t in c.tasks && t.result.project in c.projects && t.result.project.nextRunnableResult == null
      ensures !CanOffer(t, env, t.result.project)
    {
      assert t.result in c.results && NothingLeft(c, t.result.project, Open(c, env));
    }
    forall r | r in c.results && r.project in c.projects && r.project.nextRunnableResult == null
      ensures !OpenWithoutTask(c, env, r.project, r)
    {
      assert NothingLeft(c, r.project, Open(c, env));
    }
  }

  /** `assign_results_to_projects`.  Its measure, unselected results plus
      projects with a candidate, does not grow. */
  method AssignResultsToProjects(c: ClientState, env: Env)
    requires Consistent(c) && CandidatesOk(c, env)
    modifies c.projects`nextRunnableResult, c.results`alreadySelected
    ensures CandidatesOk(c, env)
    ensures forall p :: p in c.projects ==> p.nextRunnableResult == old(Picked(c, env, p))
    ensures Unselected(c) <= old(Unselected(c)) && forall p :: p in c.projects ==>
              p.nextRunnableResult !in Unselected(c)
    ensures forall r :: r in old(Unselected(c)) && r !in Unselected(c) ==>
              r.project in c.projects && r.project.nextRunnableResult == r
    ensures forall p :: p in c.projects && p.nextRunnableResult == null ==> NothingLeft(c, p, Open(c, env))
    ensures forall t ::
              t in c.tasks && t.result.project in c.projects && t.result.project.nextRunnableResult == null ==>
              !CanOffer(t, env, t.result.project)
    ensures forall r :: r in c.results && r.project in c.projects && r.project.nextRunnableResult == null ==>
              !OpenWithoutTask(c, env, r.project, r)
    ensures |Unselected(c)| + |Pending(c)| <= old(|Unselected(c)| + |Pending(c)|)
  {
    hide *;
    ghost var before := Pending(c);
    OfferAll(c, env);
    SizeOfUnion(before, Pending(c));
    MarkPicks(c, env, before);
    NoneIsLeft(c, env);
  }
}
