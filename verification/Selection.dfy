/** How `make_run_list` picks one job at a time: the earliest deadline, the
    first GPU job, and the job of the project that is owed most
    (client/cpu_sched.cpp:77-225, 367-512). */
module Selection {
  import opened ClientTypes
  import opened Client
  import opened Scheduler

  /** What the rest of the client says about jobs and projects at the start of
      a pass; round-robin simulation gives the deadline misses. */
  datatype Forecast = Forecast(
    deadline: Result -> real,
    remaining: Result -> real,
    index: Result -> int,
    computingDone: Result -> bool,
    backedOff: Result -> bool,
    flopsFraction: Result -> NonNegReal,
    shmemRetry: bool,
    rec: Project -> NonNegReal,
    extremeDcf: Project -> bool,
    deadlinesMissed: Project -> nat -> int)

  // ---- the first of the best --------------------------------------------

  /** What decides between two jobs: lower comes first, in each part; `late`
      is true of a job that has not been started. */
  datatype Rank = Rank(first: real, late: bool, last: real)

  datatype Entry = Out | In(rank: Rank)

  predicate Before(a: Rank, b: Rank) {
    || a.first < b.first
    || (a.first == b.first && !a.late && b.late)
    || (a.first == b.first && a.late == b.late && a.last < b.last)
  }

  /** Among the first `n` entries, `best` is the first that no other comes before. */
  ghost predicate FirstBest(entries: seq<Entry>, n: nat, best: int)
    requires n <= |entries|
  {
    if best < 0 then forall k :: 0 <= k < n ==> entries[k].Out?
    else
      && best < n && entries[best].In?
      && forall k :: 0 <= k < n && entries[k].In? ==>
           !Before(entries[k].rank, entries[best].rank) && (k < best ==> Before(entries[best].rank, entries[k].rank))
  }

  lemma NextBest(entries: seq<Entry>, n: nat, best: int)
    requires n < |entries| && FirstBest(entries, n, best)
    ensures FirstBest(entries, n + 1,
              if entries[n].In? && (best < 0 || Before(entries[n].rank, entries[best].rank)) then n else best)
  {
  }

  /** The choice does not depend on how the list is scanned: there is only one. */
  lemma FirstBestIsUnique(entries: seq<Entry>, n: nat, a: int, b: int)
    requires n <= |entries| && FirstBest(entries, n, a) && FirstBest(entries, n, b) && -1 <= a && -1 <= b
    ensures a == b
  {
  }

  /** The first of the best, or -1. */
  ghost function BestOf(entries: seq<Entry>, n: nat): (best: int)
    requires n <= |entries|
    ensures -1 <= best < n && (best >= 0 ==> entries[best].In?)
  {
    if n == 0 then -1
    else
      var b := BestOf(entries, n - 1);
      if entries[n - 1].In? && (b < 0 || Before(entries[n - 1].rank, entries[b].rank)) then n - 1 else b
  }

  lemma {:induction false} BestOfIsFirst(entries: seq<Entry>, n: nat)
    requires n <= |entries|
    ensures FirstBest(entries, n, BestOf(entries, n))
  {
    if n > 0 {
      BestOfIsFirst(entries, n - 1);
      NextBest(entries, n - 1, BestOf(entries, n - 1));
    }
  }

  // ---- earliest deadline ------------------------------------------------

  /** A job that `earliest_deadline_result` looks at. */
  predicate EdfEligible(r: Result, rt: nat, env: Env, f: Forecast)
    reads r`alreadySelected, r.project`deadlinesMissedCopy
  {
    && r.rscType == rt && !r.alreadySelected && r in env.runnable && !r.nonCpuIntensive
    && (f.extremeDcf(r.project) || r.project.deadlinesMissedCopy(rt) > 0)
  }

  ghost function EdfEntry(c: ClientState, r: Result, rt: nat, env: Env, f: Forecast): Entry
    reads c`tasks, r`alreadySelected, r.project`deadlinesMissedCopy
  {
    if EdfEligible(r, rt, env, f) then In(Rank(f.deadline(r), !HasTask(c.tasks, r), f.remaining(r))) else Out
  }

  ghost function EdfEntries(c: ClientState, rt: nat, env: Env, f: Forecast, n: nat): (entries: seq<Entry>)
    requires n <= |c.results|
    reads c`results, c`tasks, c.results`alreadySelected, (set r | r in c.results :: r.project)`deadlinesMissedCopy
    ensures |entries| == n
  {
    if n == 0 then [] else EdfEntries(c, rt, env, f, n - 1) + [EdfEntry(c, c.results[n - 1], rt, env, f)]
  }

  lemma {:induction false} EdfEntriesAt(c: ClientState, rt: nat, env: Env, f: Forecast, n: nat)
    requires n <= |c.results|
    ensures forall k :: 0 <= k < n ==> EdfEntries(c, rt, env, f, n)[k] == EdfEntry(c, c.results[k], rt, env, f)
  {
    if n > 0 { EdfEntriesAt(c, rt, env, f, n - 1); }
  }

  /** Place in the list of results of the eligible job of earliest deadline, or -1. */
  ghost function EarliestDeadline(c: ClientState, rt: nat, env: Env, f: Forecast): (at: int)
    reads c`results, c`tasks, c.results`alreadySelected, (set r | r in c.results :: r.project)`deadlinesMissedCopy
    ensures -1 <= at < |c.results|
  {
    BestOf(EdfEntries(c, rt, env, f, |c.results|), |c.results|)
  }

  /** A runnable job of the type, not yet selected, that may miss its deadline. */
  ghost predicate MayMiss(r: Result, rt: nat, env: Env, f: Forecast)
    reads r`alreadySelected, r.project`deadlinesMissedCopy
  {
    && r.rscType == rt && !r.alreadySelected && r in env.runnable && !r.nonCpuIntensive
    && (f.extremeDcf(r.project) || r.project.deadlinesMissedCopy(rt) > 0)
  }

  /** The job is due no later than the other; if they are due together it is started,
      or neither is or both are, and it has no more left to do. */
  ghost predicate NoLater(c: ClientState, f: Forecast, best: Result, r: Result)
    reads c`tasks
  {
    && f.deadline(best) <= f.deadline(r)
    && (f.deadline(best) == f.deadline(r) && HasTask(c.tasks, r) ==> HasTask(c.tasks, best))
    && (f.deadline(best) == f.deadline(r) && (HasTask(c.tasks, r) <==> HasTask(c.tasks, best)) ==>
          f.remaining(best) <= f.remaining(r))
  }

  lemma EarliestIs(c: ClientState, rt: nat, env: Env, f: Forecast, at: int)
    requires -1 <= at < |c.results| && FirstBest(EdfEntries(c, rt, env, f, |c.results|), |c.results|, at)
    ensures at < 0 <==> forall r :: r in c.results ==> !MayMiss(r, rt, env, f)
    ensures at >= 0 ==> MayMiss(c.results[at], rt, env, f)
    ensures at >= 0 ==> forall r :: r in c.results && MayMiss(r, rt, env, f) ==> NoLater(c, f, c.results[at], r)
  {
    hide HasTask;
    EdfEntriesAt(c, rt, env, f, |c.results|);
    var entries := EdfEntries(c, rt, env, f, |c.results|);
    forall k | 0 <= k < |c.results|
      ensures entries[k].In? <==> MayMiss(c.results[k], rt, env, f)
      ensures entries[k].In? ==>
                entries[k].rank ==
                  Rank(f.deadline(c.results[k]), !HasTask(c.tasks, c.results[k]), f.remaining(c.results[k]))
    {
      assert entries[k] == EdfEntry(c, c.results[k], rt, env, f);
    }
    if at >= 0 {
      assert entries[at].In?;
      forall r | r in c.results && MayMiss(r, rt, env, f) ensures NoLater(c, f, c.results[at], r) {
        var k :| 0 <= k < |c.results| && c.results[k] == r;
        assert entries[k].In? && !Before(entries[k].rank, entries[at].rank);
      }
    }
  }

  method EarliestDeadlineResult(c: ClientState, rt: nat, env: Env, f: Forecast) returns (best: Result?, ghost at: int)
    requires OneTaskPerResult(c.tasks)
    ensures at == EarliestDeadline(c, rt, env, f)
    ensures best == if at < 0 then null else c.results[at]
    ensures best == null <==> forall r :: r in c.results ==> !MayMiss(r, rt, env, f)
    ensures best != null ==> MayMiss(best, rt, env, f)
    ensures best != null ==> forall r :: r in c.results && MayMiss(r, rt, env, f) ==> NoLater(c, f, best, r)
  {
    best, at := null, -1;
    var bestAtp: ActiveTask? := null;
    ghost var entries := EdfEntries(c, rt, env, f, |c.results|);
    EdfEntriesAt(c, rt, env, f, |c.results|);
    for i := 0 to |c.results|
      invariant FirstBest(entries, i, at) && -1 <= at
      invariant best == if at < 0 then null else c.results[at]
      invariant best != null ==> (bestAtp != null <==> HasTask(c.tasks, best))
    {
      NextBest(entries, i, at);
      var rp := c.results[i];
      assert entries[i] == EdfEntry(c, rp, rt, env, f);
      if rp.rscType != rt || rp.alreadySelected || rp !in env.runnable || rp.nonCpuIntensive { continue; }
      if !f.extremeDcf(rp.project) && rp.project.deadlinesMissedCopy(rt) <= 0 { continue; }
      assert entries[i].In?;
      var atp := c.LookupActiveTaskByResult(rp);
      if best == null || f.deadline(rp) < f.deadline(best) {
        best, bestAtp, at := rp, atp, i;
        continue;
      }
      if f.deadline(rp) > f.deadline(best) { continue; }
      if bestAtp != null && atp == null { continue; }
      if f.remaining(rp) < f.remaining(best) || (bestAtp == null && atp != null) {
        best, bestAtp, at := rp, atp, i;
      }
    }
    BestOfIsFirst(entries, |c.results|);
    FirstBestIsUnique(entries, |c.results|, at, EarliestDeadline(c, rt, env, f));
    EarliestIs(c, rt, env, f, at);
  }

  // ---- GPU jobs in the order of arrival ---------------------------------

  predicate CoprocEligible(r: Result, rt: nat, env: Env)
    reads r`alreadySelected
  {
    r.rscType == rt && r in env.runnable && !r.nonCpuIntensive && !r.alreadySelected
  }

  /** Higher priority first, then started jobs, then those that came earlier. */
  ghost function CoprocEntry(r: Result, rt: nat, env: Env, f: Forecast): Entry
    reads r`alreadySelected, r`notStarted, r.project`schedPriority
  {
    if CoprocEligible(r, rt, env) then In(Rank(-r.project.schedPriority, r.notStarted, f.index(r) as real)) else Out
  }

  ghost function CoprocEntries(c: ClientState, rt: nat, env: Env, f: Forecast, n: nat): (entries: seq<Entry>)
    requires n <= |c.results|
    reads c`results, c.results`alreadySelected, c.results`notStarted,
          (set r | r in c.results :: r.project)`schedPriority
    ensures |entries| == n
  {
    if n == 0 then [] else CoprocEntries(c, rt, env, f, n - 1) + [CoprocEntry(c.results[n - 1], rt, env, f)]
  }

  lemma {:induction false} CoprocEntriesAt(c: ClientState, rt: nat, env: Env, f: Forecast, n: nat)
    requires n <= |c.results|
    ensures forall k :: 0 <= k < n ==> CoprocEntries(c, rt, env, f, n)[k] == CoprocEntry(c.results[k], rt, env, f)
  {
    if n > 0 { CoprocEntriesAt(c, rt, env, f, n - 1); }
  }

  /** Place in the list of results of the GPU job to take first, or -1. */
  ghost function FirstCoproc(c: ClientState, rt: nat, env: Env, f: Forecast): (at: int)
    reads c`results, c.results`alreadySelected, c.results`notStarted,
          (set r | r in c.results :: r.project)`schedPriority
    ensures -1 <= at < |c.results|
  {
    BestOf(CoprocEntries(c, rt, env, f, |c.results|), |c.results|)
  }

  /** A runnable job of the type that is not yet selected. */
  ghost predicate CanTake(r: Result, rt: nat, env: Env)
    reads r`alreadySelected
  {
    r.rscType == rt && !r.alreadySelected && r in env.runnable && !r.nonCpuIntensive
  }

  /** The job's project has no lower priority than the other's; if they have the same
      one the job is started, or neither is or both are, and it came no later. */
  ghost predicate NoLessUrgent(f: Forecast, best: Result, r: Result)
    reads best`notStarted, r`notStarted, best.project`schedPriority, r.project`schedPriority
  {
    && best.project.schedPriority >= r.project.schedPriority
    && (best.project.schedPriority == r.project.schedPriority && best.notStarted ==> r.notStarted)
    && (best.project.schedPriority == r.project.schedPriority && best.notStarted == r.notStarted ==>
          f.index(best) <= f.index(r))
  }

  lemma FirstCoprocIs(c: ClientState, rt: nat, env: Env, f: Forecast, at: int)
    requires -1 <= at < |c.results| && FirstBest(CoprocEntries(c, rt, env, f, |c.results|), |c.results|, at)
    ensures at < 0 <==> forall r :: r in c.results ==> !CanTake(r, rt, env)
    ensures at >= 0 ==> CanTake(c.results[at], rt, env)
    ensures at >= 0 ==> forall r :: r in c.results && CanTake(r, rt, env) ==> NoLessUrgent(f, c.results[at], r)
  {
    CoprocEntriesAt(c, rt, env, f, |c.results|);
    var entries := CoprocEntries(c, rt, env, f, |c.results|);
    forall k | 0 <= k < |c.results|
      ensures entries[k].In? <==> CanTake(c.results[k], rt, env)
      ensures entries[k].In? ==>
                entries[k].rank ==
                  Rank(-c.results[k].project.schedPriority, c.results[k].notStarted, f.index(c.results[k]) as real)
    {
      assert entries[k] == CoprocEntry(c.results[k], rt, env, f);
    }
    if at >= 0 {
      assert entries[at].In?;
      forall r | r in c.results && CanTake(r, rt, env) ensures NoLessUrgent(f, c.results[at], r) {
        var k :| 0 <= k < |c.results| && c.results[k] == r;
        assert entries[k].In? && !Before(entries[k].rank, entries[at].rank);
      }
    }
  }

  method FirstCoprocResult(c: ClientState, rt: nat, env: Env, f: Forecast) returns (best: Result?, ghost at: int)
    ensures at == FirstCoproc(c, rt, env, f)
    ensures best == if at < 0 then null else c.results[at]
    ensures best == null <==> forall r :: r in c.results ==> !CanTake(r, rt, env)
    ensures best != null ==> CanTake(best, rt, env)
    ensures best != null ==> forall r :: r in c.results && CanTake(r, rt, env) ==> NoLessUrgent(f, best, r)
  {
    best, at := null, -1;
    var bestPrio := 0.0;
    ghost var entries := CoprocEntries(c, rt, env, f, |c.results|);
    CoprocEntriesAt(c, rt, env, f, |c.results|);
    for i := 0 to |c.results|
      invariant FirstBest(entries, i, at) && -1 <= at
      invariant best == if at < 0 then null else c.results[at]
      invariant best != null ==> bestPrio == best.project.schedPriority
    {
      NextBest(entries, i, at);
      var rp := c.results[i];
      assert entries[i] == CoprocEntry(rp, rt, env, f);
      if rp.rscType != rt || rp !in env.runnable || rp.nonCpuIntensive || rp.alreadySelected { continue; }
      assert entries[i].In?;
      var prio := rp.project.schedPriority;
      if best == null {
        best, bestPrio, at := rp, prio, i;
        continue;
      }
      if prio < bestPrio { continue; }
      if prio > bestPrio {
        best, bestPrio, at := rp, prio, i;
        continue;
      }
      var bs, rs := !best.notStarted, !rp.notStarted;
      if rs && !bs {
        best, bestPrio, at := rp, prio, i;
        continue;
      }
      if !rs && bs { continue; }
      if f.index(rp) < f.index(best) {
        best, bestPrio, at := rp, prio, i;
      }
    }
    BestOfIsFirst(entries, |c.results|);
    FirstBestIsUnique(entries, |c.results|, at, FirstCoproc(c, rt, env, f));
    FirstCoprocIs(c, rt, env, f, at);
  }

  // ---- the project that is owed most ------------------------------------

  /** Projects that have a candidate and compete for CPUs. */
  ghost function ProjectEntry(p: Project): Entry
    reads p`nextRunnableResult, p`schedPriority
  {
    if p.nextRunnableResult != null && !p.nonCpuIntensive then In(Rank(-p.schedPriority, false, 0.0)) else Out
  }

  ghost function ProjectEntries(c: ClientState, n: nat): (entries: seq<Entry>)
    requires n <= |c.projects|
    reads c`projects, c.projects`nextRunnableResult, c.projects`schedPriority
    ensures |entries| == n
  {
    if n == 0 then [] else ProjectEntries(c, n - 1) + [ProjectEntry(c.projects[n - 1])]
  }

  lemma {:induction false} ProjectEntriesAt(c: ClientState, n: nat)
    requires n <= |c.projects|
    ensures forall k :: 0 <= k < n ==> ProjectEntries(c, n)[k] == ProjectEntry(c.projects[k])
  {
    if n > 0 { ProjectEntriesAt(c, n - 1); }
  }

  /** Place in the list of projects of the one that is owed most, or -1. */
  ghost function LargestDebt(c: ClientState): (at: int)
    reads c`projects, c.projects`nextRunnableResult, c.projects`schedPriority
    ensures -1 <= at < |c.projects|
  {
    BestOf(ProjectEntries(c, |c.projects|), |c.projects|)
  }

  /** The candidate of the first project of highest priority; the project has
      none afterwards. */
  method LargestDebtProjectBestResult(c: ClientState) returns (rp: Result?, ghost at: int)
    modifies c.projects`nextRunnableResult
    ensures at == old(LargestDebt(c))
    ensures rp == if at < 0 then null else old(c.projects[at].nextRunnableResult)
    ensures at >= 0 ==> c.projects[at].nextRunnableResult == null
    ensures at < 0 ==> forall p :: p in c.projects ==> old(p.nextRunnableResult) == null || p.nonCpuIntensive
    ensures at >= 0 ==> !c.projects[at].nonCpuIntensive && old(c.projects[at].nextRunnableResult) != null
    ensures at >= 0 ==> forall p :: p in c.projects && old(p.nextRunnableResult) != null && !p.nonCpuIntensive ==>
              c.projects[at].schedPriority >= p.schedPriority
    ensures forall p ::
              p in c.projects && (at < 0 || p != c.projects[at]) ==> p.nextRunnableResult == old(p.nextRunnableResult)
  {
    var bestProject: Project? := null;
    var bestDebt, first := 0.0, true;
    at := -1;
    ghost var entries := ProjectEntries(c, |c.projects|);
    ProjectEntriesAt(c, |c.projects|);
    for i := 0 to |c.projects|
      invariant FirstBest(entries, i, at) && -1 <= at
      invariant bestProject == if at < 0 then null else c.projects[at]
      invariant first <==> bestProject == null
      invariant bestProject != null ==> bestDebt == bestProject.schedPriority
      invariant forall p :: p in c.projects ==> p.nextRunnableResult == old(p.nextRunnableResult)
    {
      NextBest(entries, i, at);
      var p := c.projects[i];
      assert entries[i] == ProjectEntry(p);
      if p.nextRunnableResult == null || p.nonCpuIntensive { continue; }
      assert entries[i].In?;
      if first || p.schedPriority > bestDebt {
        first, bestProject, bestDebt, at := false, p, p.schedPriority, i;
      }
    }
    BestOfIsFirst(entries, |c.projects|);
    FirstBestIsUnique(entries, |c.projects|, at, old(LargestDebt(c)));
    forall k | 0 <= k < |c.projects|
      ensures entries[k].In? <==> c.projects[k].nextRunnableResult != null && !c.projects[k].nonCpuIntensive
    {
      assert entries[k] == ProjectEntry(c.projects[k]);
    }
    if bestProject == null { return null, at; }
    rp := bestProject.nextRunnableResult;
    bestProject.nextRunnableResult := null;
  }
}
