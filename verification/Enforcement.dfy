/** A whole scheduling pass. */
module Enforcement {
  import opened Lists
  import opened GpuAssignment
  import opened ClientTypes
  import opened Client
  import opened TaskControl
  import opened Scheduler
  import RunList

  // ---- the ordered list -------------------------------------------------

  ghost predicate InMidSlice(c: ClientState, r: Result, env: Env)
    reads c`tasks, c.tasks`schedulerState
  {
    exists k :: 0 <= k < |c.tasks| && c.tasks[k].result == r && MidSlice(c.tasks[k], env)
  }

  /** The jobs offered to a pass: the run list, then the jobs in the middle of
      their time slice that it lacks. */
  ghost function Listed(c: ClientState, runList: seq<Result>, env: Env): seq<Result>
    reads c`tasks, c.tasks`schedulerState
  {
    runList + Appended(c, runList, env, |c.tasks|)
  }

  /** The key a job is sorted by, given its position in the run list. */
  ghost function KeyIn(c: ClientState, env: Env, r: Result, seqno: nat): RunList.Key
    reads c`tasks, c.tasks`schedulerState, r`edfScheduled
  {
    RunList.Key(r.edfScheduled, r.UsesCoprocs(), InMidSlice(c, r, env), seqno, r.id)
  }

  /** Place in the run list; all appended jobs count as listed last. */
  function Position(runList: seq<Result>, r: Result): nat {
    if runList == [] || runList[0] == r then 0 else 1 + Position(runList[1..], r)
  }

  lemma {:induction false} PositionIsIndex(runList: seq<Result>, r: Result)
    ensures Position(runList, r) <= |runList|
    ensures Position(runList, r) < |runList| <==> r in runList
    ensures forall k :: 0 <= k < |runList| && Distinct(runList) && runList[k] == r ==> Position(runList, r) == k
  {
    if runList != [] && runList[0] != r {
      PositionIsIndex(runList[1..], r);
      assert runList == [runList[0]] + runList[1..];
    }
  }

  /** The keys of the listed jobs, from the state at the start of the pass. */
  ghost function KeysIn(c: ClientState, runList: seq<Result>, env: Env): map<Result, RunList.Key>
    reads c`tasks, c.tasks`schedulerState, c`results, c.results`edfScheduled
  {
    map r | r in c.results && r in Listed(c, runList, env) :: KeyIn(c, env, r, Position(runList, r))
  }

  ghost function KeyMap(list: seq<Result>): map<Result, RunList.Key>
    reads list`edfScheduled, list`seqno, list`unfinishedTimeSlice
  {
    map r | r in list :: RunList.KeyOf(r)
  }

  /** Every job in the middle of its time slice that the run list lacks is appended. */
  lemma {:induction false} AppendedHas(c: ClientState, runList: seq<Result>, env: Env, n: nat, k: nat)
    requires k < n <= |c.tasks| && MidSlice(c.tasks[k], env) && c.tasks[k].result !in runList
    ensures c.tasks[k].result in Appended(c, runList, env, n)
  {
    if k < n - 1 {
      AppendedHas(c, runList, env, n - 1, k);
    }
  }

  lemma AppendedAre(c: ClientState, runList: seq<Result>, env: Env)
    ensures forall r :: InMidSlice(c, r, env) ==> r in Listed(c, runList, env)
  {
    forall r | InMidSlice(c, r, env) ensures r in Listed(c, runList, env) {
      var k :| 0 <= k < |c.tasks| && c.tasks[k].result == r && MidSlice(c.tasks[k], env);
      if r !in runList {
        AppendedHas(c, runList, env, |c.tasks|, k);
      }
    }
  }

  method AppendJobs(c: ClientState, runList: seq<Result>, env: Env) returns (listed: seq<Result>)
    requires c.Shape() && Distinct(runList) && forall r :: r in runList ==> r in c.results
    modifies (set r | r in c.results)`seqno, (set r | r in c.results)`unfinishedTimeSlice
    ensures Distinct(listed) && listed == Listed(c, runList, env) && forall r :: r in listed ==> r in c.results
    ensures forall r ::
              r in c.results ==> (r.unfinishedTimeSlice <==> InMidSlice(c, r, env) || old(r.unfinishedTimeSlice))
    ensures forall r :: r in c.results ==>
              r.seqno == if InMidSlice(c, r, env) && r !in runList then |runList| else old(r.seqno)
    ensures forall r :: r in listed ==> r in runList || InMidSlice(c, r, env)
  {
    hide MidSlice, Appended, Result.UsesCoprocs;
    AppendedFacts(c, runList, env, |c.tasks|);
    listed := AppendUnfinishedTimeSlice(c, runList, env);
    forall r | r in c.results
      ensures r.unfinishedTimeSlice <==> InMidSlice(c, r, env) || old(r.unfinishedTimeSlice)
      ensures r.seqno == if InMidSlice(c, r, env) && r !in runList then |runList| else old(r.seqno)
    {
      if k :| 0 <= k < |c.tasks| && c.tasks[k].result == r {
        assert InMidSlice(c, r, env) == MidSlice(c.tasks[k], env);
      }
    }
  }

  /** The job has a scheduled task whose time slice is not over. */
  ghost predicate Unfinished(c: ClientState, env: Env, r: Result)
    reads c`tasks, c.tasks`schedulerState
  {
    && (exists t :: t in c.tasks && t.result == r && t.schedulerState == SchedScheduled)
    && r in env.runnable && r !in env.sliceDone && !r.nonCpuIntensive && (r.rscType != 0 ==> !env.gpuSuspended)
  }

  lemma UnfinishedIs(c: ClientState, env: Env, r: Result)
    ensures Unfinished(c, env, r) <==> InMidSlice(c, r, env)
  {
    if Unfinished(c, env, r) {
      var t :| t in c.tasks && t.result == r && t.schedulerState == SchedScheduled;
      var k :| 0 <= k < |c.tasks| && c.tasks[k] == t;
      assert MidSlice(c.tasks[k], env);
    }
  }

  /** The fields that the list is sorted by: the place in the run list, the appended
      jobs counting as listed last, and whether the time slice is unfinished. */
  ghost predicate Numbered(runList: seq<Result>, listed: seq<Result>, unfinished: set<Result>)
    reads listed`seqno, listed`unfinishedTimeSlice, runList`seqno
  {
    && (forall k :: 0 <= k < |runList| ==> runList[k].seqno == k)
    && forall r :: r in listed ==>
         (r !in runList ==> r.seqno == |runList|) && (r.unfinishedTimeSlice <==> r in unfinished)
  }

  ghost function UnfinishedJobs(c: ClientState, env: Env): set<Result>
    reads c`tasks, c`results, c.tasks`schedulerState
  {
    set r | r in c.results && Unfinished(c, env, r)
  }

  /** The jobs of the run list, and those that are in the middle of their time slice. */
  ghost predicate ListedAre(runList: seq<Result>, listed: seq<Result>, unfinished: set<Result>) {
    && (forall r :: r in listed ==> r in runList || r in unfinished)
    && (forall r :: r in runList ==> r in listed) && (forall r :: r in unfinished ==> r in listed)
  }

  method ListJobs(c: ClientState, runList: seq<Result>, env: Env) returns (listed: seq<Result>)
    requires c.Shape() && Distinct(runList) && forall r :: r in runList ==> r in c.results
    modifies (set r | r in c.results)`seqno, (set r | r in c.results)`unfinishedTimeSlice
    ensures Distinct(listed) && listed == Listed(c, runList, env) && forall r :: r in listed ==> r in c.results
    ensures KeyMap(listed) == KeysIn(c, runList, env)
    ensures Numbered(runList, listed, UnfinishedJobs(c, env)) && ListedAre(runList, listed, UnfinishedJobs(c, env))
  {
    NumberJobs(runList);
    listed := AppendJobs(c, runList, env);
    AppendedAre(c, runList, env);
    forall r | r in c.results ensures InMidSlice(c, r, env) <==> r in UnfinishedJobs(c, env) {
      UnfinishedIs(c, env, r);
    }
    forall r | r in listed
      ensures RunList.KeyOf(r) == KeyIn(c, env, r, Position(runList, r))
    {
      PositionIsIndex(runList, r);
      assert r in runList ==> r == runList[Position(runList, r)];
    }
  }

  /** `ordered` is the only list that sorting and then promoting can give. */
  ghost predicate Ordered(listed: seq<Result>, keys: map<Result, RunList.Key>, env: Env, sorted: seq<Result>,
                          sortedKeys: seq<RunList.Key>, ordered: seq<Result>)
  {
    && |sorted| == |sortedKeys| && multiset(sorted) == multiset(listed) && RunList.Sorted(sortedKeys)
    && (forall i :: 0 <= i < |sorted| ==> sorted[i] in keys && sortedKeys[i] == keys[sorted[i]])
    && ordered == RunList.Promoted(sorted, env.ncpus, env.missed)
  }

  lemma ListedIdsDiffer(c: ClientState, listed: seq<Result>)
    requires c.Shape() && Distinct(listed) && forall r :: r in listed ==> r in c.results
    ensures RunList.DistinctIds(listed)
  {
    forall i, j | 0 <= i < j < |listed| ensures listed[i].id != listed[j].id {
      assert listed[i] in c.results && listed[j] in c.results;
    }
  }

  lemma ListedCpusOk(c: ClientState, jobs: seq<Result>)
    requires c.Shape() && forall r :: r in jobs ==> r in c.results
    ensures RunList.NcpusOk(jobs)
  {
    forall r | r in jobs ensures r.avgNcpus >= 0.0 {
      assert c.ResultOk(r);
    }
  }

  lemma IsOrdered(listed: seq<Result>, env: Env, sorted: seq<Result>, ordered: seq<Result>)
    requires multiset(sorted) == multiset(listed) && RunList.Sorted(RunList.Keys(sorted))
    requires ordered == RunList.Promoted(sorted, env.ncpus, env.missed)
    ensures Ordered(listed, KeyMap(listed), env, sorted, RunList.Keys(sorted), ordered)
  {
    hide RunList.Sorted, RunList.Promoted;
    forall i | 0 <= i < |sorted|
      ensures sorted[i] in KeyMap(listed) && RunList.Keys(sorted)[i] == KeyMap(listed)[sorted[i]]
    {
      assert sorted[i] in multiset(sorted);
    }
  }

  method OrderJobs(c: ClientState, listed: seq<Result>, env: Env)
      returns (ordered: seq<Result>, ghost sorted: seq<Result>)
    requires c.Shape() && Distinct(listed) && forall r :: r in listed ==> r in c.results
    ensures Ordered(listed, KeyMap(listed), env, sorted, RunList.Keys(sorted), ordered)
    ensures RunList.InOrderOfImportance(sorted) && multiset(sorted) == multiset(listed)
    ensures Distinct(ordered) && forall r :: r in ordered ==> r in c.results
  {
    hide *;
    ListedIdsDiffer(c, listed);
    ordered := RunList.SortJobs(listed);
    sorted := ordered;
    SameJobs(sorted, listed, c.results);
    ListedCpusOk(c, sorted);
    ordered := RunList.PromoteMultiThreadJobs(ordered, env.ncpus, env.missed);
    RunList.PromotionKeepsJobs(sorted, env.ncpus, env.missed);
    SameJobs(ordered, listed, c.results);
    IsOrdered(listed, env, sorted, ordered);
  }

  method MakeList(c: ClientState, runList: seq<Result>, env: Env) returns (listed: seq<Result>)
    requires c.Shape() && Distinct(runList) && forall r :: r in runList ==> r in c.results
    modifies c.tasks`nextSchedulerState
    modifies (set r | r in c.results)`seqno, (set r | r in c.results)`unfinishedTimeSlice
    ensures Distinct(listed) && forall r :: r in listed ==> r in c.results
    ensures listed == old(Listed(c, runList, env)) && KeyMap(listed) == old(KeysIn(c, runList, env))
    ensures Numbered(runList, listed, old(UnfinishedJobs(c, env)))
            && ListedAre(runList, listed, old(UnfinishedJobs(c, env)))
    ensures forall t :: t in c.tasks ==> t.nextSchedulerState == SchedPreempted
  {
    hide Listed, KeysIn, Distinct, UnfinishedJobs, Numbered, ListedAre;
    ResetNextStates(c);
    listed := ListJobs(c, runList, env);
  }

  /** Each result as the job that the GPU assignment sees. */
  ghost function JobsOf(c: ClientState): map<Result, Job>
    reads c`results, c.results`coprocIndices, c`tasks, c.tasks`taskState
  {
    map r | r in c.results :: r.AsJob(exists t :: t in c.tasks && t.result == r && t.taskState == Executing)
  }

  ghost predicate OfferedAs(ordered: seq<Result>, jobs: map<Result, Job>, offered: seq<Job>) {
    |offered| == |ordered| && forall k :: 0 <= k < |ordered| ==> ordered[k] in jobs && offered[k] == jobs[ordered[k]]
  }

  lemma OfferedNow(c: ClientState, ordered: seq<Result>)
    requires forall r :: r in ordered ==> r in c.results
    ensures OfferedAs(ordered, JobsOf(c), ClientState.AsJobs(ordered, c.Running()))
  {
    forall k | 0 <= k < |ordered|
      ensures ordered[k] in JobsOf(c) && JobsOf(c)[ordered[k]] == ordered[k].AsJob(ordered[k] in c.Running())
    {
      assert ordered[k] in ordered;
    }
  }

  /** Numbering and marking jobs does not touch what safety is about. */
  method MakeListSafely(c: ClientState, runList: seq<Result>, env: Env) returns (listed: seq<Result>)
    requires c.Safe() && Distinct(runList) && forall r :: r in runList ==> r in c.results
    modifies c.tasks`nextSchedulerState
    modifies (set r | r in c.results)`seqno, (set r | r in c.results)`unfinishedTimeSlice
    ensures c.Safe() && c.Shape() && (forall t :: t in c.tasks ==> t.nextSchedulerState == SchedPreempted)
    ensures Distinct(listed) && forall r :: r in listed ==> r in c.results
    ensures listed == old(Listed(c, runList, env)) && KeyMap(listed) == old(KeysIn(c, runList, env))
    ensures Numbered(runList, listed, old(UnfinishedJobs(c, env)))
            && ListedAre(runList, listed, old(UnfinishedJobs(c, env)))
    ensures JobsOf(c) == old(JobsOf(c))
  {
    hide UnfinishedJobs, Numbered, ListedAre;
    listed := MakeList(c, runList, env);
  }

  /** The jobs of the run list and the unfinished ones, in order of importance. */
  ghost predicate Sorted(runList: seq<Result>, sorted: seq<Result>, unfinished: set<Result>)
    reads sorted`edfScheduled, sorted`seqno, sorted`unfinishedTimeSlice, runList`seqno
  {
    && ListedAre(runList, sorted, unfinished) && Numbered(runList, sorted, unfinished)
    && RunList.InOrderOfImportance(sorted)
  }

  lemma IsSorted(runList: seq<Result>, listed: seq<Result>, sorted: seq<Result>, unfinished: set<Result>)
    requires ListedAre(runList, listed, unfinished) && Numbered(runList, listed, unfinished)
    requires RunList.InOrderOfImportance(sorted) && multiset(sorted) == multiset(listed)
    ensures Sorted(runList, sorted, unfinished)
  {
    forall r | r in sorted ensures r in listed {
      assert r in multiset(sorted);
    }
    forall r | r in listed ensures r in sorted {
      assert r in multiset(listed);
    }
  }

  /** The list in the order in which the pass deals with it. */
  method PrepareList(c: ClientState, runList: seq<Result>, env: Env)
      returns (ordered: seq<Result>, ghost sorted: seq<Result>, ghost sortedKeys: seq<RunList.Key>)
    requires c.Safe() && Distinct(runList) && forall r :: r in runList ==> r in c.results
    modifies c.tasks`nextSchedulerState
    modifies (set r | r in c.results)`seqno, (set r | r in c.results)`unfinishedTimeSlice
    ensures c.Safe() && (forall t :: t in c.tasks ==> t.nextSchedulerState == SchedPreempted)
    ensures Ordered(old(Listed(c, runList, env)), old(KeysIn(c, runList, env)), env, sorted, sortedKeys, ordered)
    ensures Sorted(runList, sorted, old(UnfinishedJobs(c, env)))
    ensures Distinct(ordered) && forall r :: r in ordered ==> r in c.results
    ensures OfferedAs(ordered, old(JobsOf(c)), ClientState.AsJobs(ordered, c.Running()))
  {
    hide *;
    var list := MakeListSafely(c, runList, env);
    ordered, sorted := OrderJobs(c, list, env);
    IsSorted(runList, list, sorted, old(UnfinishedJobs(c, env)));
    sortedKeys := RunList.Keys(sorted);
    OfferedNow(c, ordered);
  }

  lemma SameJobs(a: seq<Result>, b: seq<Result>, results: seq<Result>)
    requires multiset(a) == multiset(b) && Distinct(b) && forall r :: r in b ==> r in results
    ensures Distinct(a) && forall r :: r in a ==> r in results
  {
    forall r | r in a ensures r in b {
      assert r in multiset(a);
    }
    forall i, j | 0 <= i < j < |a| ensures a[i] != a[j] {
      if a[i] == a[j] {
        var x := a[i];
        assert a == a[..i] + [x] + a[i + 1..j] + [x] + a[j + 1..];
        assert multiset(a)[x] >= 2;
        UniqueCounts(b, x);
      }
    }
  }

  lemma {:induction false} UniqueCounts(b: seq<Result>, x: Result)
    requires Distinct(b)
    ensures multiset(b)[x] <= 1
  {
    if b != [] {
      assert b == [b[0]] + b[1..];
      UniqueCounts(b[1..], x);
      if b[0] == x {
        assert x !in b[1..];
        assert x !in multiset(b[1..]);
      }
    }
  }

  // ---- the pass ---------------------------------------------------------

  /** What a pass went through. */
  datatype Pass = Pass(
    sorted: seq<Result>, sortedKeys: seq<RunList.Key>, ordered: seq<Result>,
    decision: Decision, stop: nat, quit: bool)

  lemma SafeTasksArePut(c: ClientState)
    requires c.Safe()
    ensures GpuTasksPut(c)
  {
  }

  ghost function GpuTasksRunning(c: ClientState): set<ActiveTask>
    reads c`tasks, c.tasks`taskState
  {
    set t | t in c.tasks && t.result.UsesCoprocs() && t.taskState == Executing
  }

  /** No GPU task is suspended in memory. */
  ghost predicate NoGpuSuspended(c: ClientState)
    reads c`tasks, c.tasks`taskState
  {
    forall t :: t in c.tasks && t.result.UsesCoprocs() ==> t.taskState != Suspended
  }

  twostate predicate NewTasksFresh(c: ClientState)
    reads c`tasks
  {
    forall t :: t in c.tasks ==> t in old(c.tasks) || !old(allocated(t))
  }

  /** Every task ends as the two loops leave it: those of the pass's beginning
      from what they were, new ones from what `new ACTIVE_TASK` makes them. */
  twostate predicate TasksEndAs(c: ClientState, env: Env, starts: map<Result, StartOutcome>, stop: nat, quit: bool)
    reads c`tasks, c.tasks
  {
    forall k :: 0 <= k < |c.tasks| ==>
      var t := c.tasks[k];
      t.View() ==
        FinalView(t, if t in old(c.tasks) then old(t.View()) else TaskView(Uninitialized, SchedUninitialized, false),
                            env.leaveInMemory, k < stop, quit, HowItStarts(starts, t.result))
  }

  method DecideAndApply(c: ClientState, list: seq<Result>, env: Env, starts: map<Result, StartOutcome>, slowFrom: nat)
      returns (ghost d: Decision, ghost stop: nat, ghost quit: bool)
    requires c.Safe() && Distinct(list) && forall r :: r in list ==> r in c.results
    requires forall t :: t in c.tasks ==> t.nextSchedulerState == SchedPreempted
    modifies c`tasks, c`granted, c.coprocs, (set r | r in c.results)`coprocIndices, (set t | t in c.tasks)
    ensures c.Safe() && old(c.tasks) <= c.tasks && NewTasksFresh(c)
    ensures Grants(c, d.offered, d.kept) && AdmissionOk(d, env, c.results, old(Tasked(c)))
            && NextStatesAre(c, env, d.admitted)
    ensures d.offered == old(ClientState.AsJobs(list, c.Running()))
    ensures stop <= |c.tasks| && (stop < |c.tasks| ==> slowFrom < stop) && TasksEndAs(c, env, starts, stop, quit)
    ensures quit == GpuQuitting(c) && (quit ==> GpuTasksRunning(c) <= old(GpuTasksRunning(c)))
    ensures IndicesKept(old(c.Running())) && (old(NoGpuSuspended(c)) ==> NoGpuSuspended(c))
  {
    hide AdmissionOk, Grants, NextStatesAre, ClientState.Safe, GpuQuitting, GpuTasksPut, HowItStarts, FinalView;
    SafeTasksArePut(c);
    d := Decide(c, list, env);
    assert GpuTasksRunning(c) == old(GpuTasksRunning(c)) && (old(NoGpuSuspended(c)) ==> NoGpuSuspended(c));
    stop, quit := ApplyDecisions(c, env, starts, slowFrom);
  }

  /** `enforce_run_list`.  The state is safe again after it; and if a GPU task
      is still to quit at the end, no GPU task was started or resumed. */
  method EnforceRunList(c: ClientState, runList: seq<Result>, env: Env, starts: map<Result, StartOutcome>,
                        slowFrom: nat)
      returns (ghost p: Pass)
    requires c.Safe() && Distinct(runList) && forall r :: r in runList ==> r in c.results
    modifies c`tasks, c`granted, c.coprocs, (set t | t in c.tasks)
    modifies (set r | r in c.results)`coprocIndices, (set r | r in c.results)`seqno,
             (set r | r in c.results)`unfinishedTimeSlice
    ensures c.Safe() && old(c.tasks) <= c.tasks && NewTasksFresh(c)
    ensures Ordered(old(Listed(c, runList, env)), old(KeysIn(c, runList, env)), env, p.sorted, p.sortedKeys, p.ordered)
    ensures Sorted(runList, p.sorted, old(UnfinishedJobs(c, env)))
    ensures OfferedAs(p.ordered, old(JobsOf(c)), p.decision.offered)
    ensures Grants(c, p.decision.offered, p.decision.kept) && AdmissionOk(p.decision, env, c.results, old(Tasked(c)))
    ensures AdmittedAre(p.decision.kept, p.decision.admitted, WorkingSets(p.decision.kept, env, old(Tasked(c))),
                        env.ncpus, RamAfter(c.results, env))
    ensures NextStatesAre(c, env, p.decision.admitted)
    ensures p.stop <= |c.tasks| && (p.stop < |c.tasks| ==> slowFrom < p.stop)
            && TasksEndAs(c, env, starts, p.stop, p.quit)
    ensures p.quit == GpuQuitting(c) && (p.quit ==> GpuTasksRunning(c) <= old(GpuTasksRunning(c)))
    ensures IndicesKept(old(c.Running())) && (old(NoGpuSuspended(c)) ==> NoGpuSuspended(c))
  {
    hide AdmissionOk, Grants, NextStatesAre, ClientState.Safe, GpuQuitting, GpuTasksRunning, OfferedAs,
         Ordered, KeysIn, Listed, FinalView, HowItStarts, Sorted, UnfinishedJobs, AdmittedAre, WorkingSets, RamAfter,
         Distinct, NoGpuSuspended;
    var list;
    ghost var sorted, sortedKeys;
    list, sorted, sortedKeys := PrepareList(c, runList, env);
    assert GpuTasksRunning(c) == old(GpuTasksRunning(c));
    ghost var d, stop, quit := DecideAndApply(c, list, env, starts, slowFrom);
    AdmissionIs(d, env, c.results, old(Tasked(c)));
    p := Pass(sorted, sortedKeys, list, d, stop, quit);
  }
}
