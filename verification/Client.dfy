/** The part of the client state that `enforce_run_list` works on, and the
    coprocessor assignment over it (client/cpu_sched.cpp:1331-1411). */
module Client {
  import opened Lists
  import opened GpuAssignment
  import opened ClientTypes
  import opened Coprocs

  twostate predicate IndicesKept(rs: set<Result>)
    reads rs`coprocIndices
  {
    forall r :: r in rs ==> r.coprocIndices == old(r.coprocIndices)
  }

  class ClientState {
    var tasks: seq<ActiveTask>
    var results: seq<Result>
    var projects: seq<Project>
    const coprocs: seq<Coproc>

    /** The jobs that the latest pass gave GPU instances to, as running jobs. */
    ghost var granted: seq<Job>

    constructor (coprocs: seq<Coproc>, projects: seq<Project>)
      requires forall t :: 0 <= t < |coprocs| ==> coprocs[t].Valid()
      requires Distinct(coprocs)
      ensures this.coprocs == coprocs && this.projects == projects && tasks == [] && results == [] && Safe()
    {
      this.coprocs, this.projects := coprocs, projects;
      tasks, results, granted := [], [], [];
    }

    ghost function Sizes(): seq<nat> {
      seq(|coprocs|, t requires 0 <= t < |coprocs| => coprocs[t].count)
    }

    ghost predicate CoprocsOk()
      reads coprocs
    {
      && (forall t :: 0 <= t < |coprocs| ==> coprocs[t].Valid())
      && Distinct(coprocs)
    }

    predicate ResultOk(r: Result)
      reads r`coprocIndices
    {
      && r.UsageOk() && |r.coprocIndices| == MAX_COPROCS_PER_JOB && r.avgNcpus >= 0.0
      && (r.UsesCoprocs() ==> r.rscType < |coprocs| && !r.nonCpuIntensive)
    }

    /** Lists hold each object once, a task belongs to a listed result, and a
        result has at most one task. */
    ghost predicate Shape()
      reads this`tasks, this`results, results`coprocIndices, coprocs
    {
      && CoprocsOk()
      && (forall r :: r in results ==> ResultOk(r))
      && (forall r, s :: r in results && s in results && r.id == s.id ==> r == s)
      && (forall t :: t in tasks ==> t.result in results)
      && OneTaskPerResult(tasks)
    }

    /** The invariant of every run.  The jobs granted instances fit together;
        a scheduled GPU task is one of them, where it was put; and an executing
        GPU task is scheduled. */
    ghost predicate Safe()
      reads this`tasks, this`results, this`granted, tasks`taskState, tasks`schedulerState, results`coprocIndices,
            coprocs
    {
      && Shape() && JobsOk(granted, Sizes()) && AllFit(Sizes(), granted)
      && (forall k :: 0 <= k < |granted| ==> granted[k].running)
      && (forall t :: t in tasks && t.result.UsesCoprocs() ==> t.result in results && TaskSafe(t))
    }

    ghost predicate TaskSafe(t: ActiveTask)
      reads this`granted, t`schedulerState, t`taskState, t.result`coprocIndices
    {
      && (t.schedulerState == SchedScheduled ==> t.result.AsJob(true) in granted)
      && (t.taskState == Executing ==> t.schedulerState == SchedScheduled)
    }

    /** Results whose task is executing. */
    ghost function Running(): set<Result>
      reads this`tasks, tasks`taskState
    {
      set t | t in tasks && t.taskState == Executing :: t.result
    }

    static ghost function AsJobs(rs: seq<Result>, run: set<Result>): (js: seq<Job>)
      reads rs
      ensures |js| == |rs| && forall k :: 0 <= k < |js| ==> js[k] == rs[k].AsJob(rs[k] in run)
    {
      seq(|rs|, k requires 0 <= k < |rs| reads rs => rs[k].AsJob(rs[k] in run))
    }

    ghost function Rows(): (rows: seq<Row>)
      reads coprocs
      ensures |rows| == |coprocs| && forall t :: 0 <= t < |rows| ==> rows[t] == coprocs[t].View()
    {
      seq(|coprocs|, t requires 0 <= t < |coprocs| reads coprocs => coprocs[t].View())
    }

    method LookupActiveTaskByResult(rp: Result) returns (atp: ActiveTask?)
      ensures atp != null ==> atp in tasks && atp.result == rp
      ensures atp == null ==> forall t :: t in tasks ==> t.result != rp
      ensures OneTaskPerResult(tasks) ==> (rp in Running() <==> atp != null && atp.taskState == Executing)
    {
      for i := 0 to |tasks|
        invariant forall k :: 0 <= k < i ==> tasks[k].result != rp
      {
        if tasks[i].result == rp {
          return tasks[i];
        }
      }
      return null;
    }

    method ClearUsage()
      requires CoprocsOk()
      modifies coprocs
      ensures CoprocsOk()
      ensures forall t, i :: 0 <= t < |coprocs| && 0 <= i < coprocs[t].count ==>
                coprocs[t].usage[i] == 0.0 && coprocs[t].pending[i] == 0.0
    {
      for k := 0 to |coprocs|
        invariant CoprocsOk()
        invariant forall t, i :: 0 <= t < k && 0 <= i < coprocs[t].count ==>
                    coprocs[t].usage[i] == 0.0 && coprocs[t].pending[i] == 0.0
      {
        coprocs[k].ClearUsage();
      }
    }

    /** A job list that the assignment can be run on. */
    ghost predicate Assignable(jobs: seq<Result>, run: set<Result>)
      reads this`tasks, tasks`taskState, jobs, coprocs
    {
      && CoprocsOk() && OneTaskPerResult(tasks) && Distinct(jobs) && (forall r :: r in jobs ==> ResultOk(r))
      && JobsOk(AsJobs(jobs, run), Sizes())
    }

    lemma AddShareIsOn(row: seq<real>, j: Job, i: nat)
      requires j.rt != 0 && i < |row| && forall k :: 0 <= k < |j.held| ==> j.held[k] < |row|
      ensures AddShare(row, j.held, Share(j.usage))[i] == row[i] + On(j, j.rt, i)
    {
    }

    ghost predicate PendingIs(js: seq<Job>)
      requires CoprocsOk()
      reads coprocs
    {
      forall t: nat, i: nat :: t < |coprocs| && i < coprocs[t].count ==>
        coprocs[t].usage[i] == 0.0 && coprocs[t].pending[i] == RunningLoad(js, t, i)
    }

    /** A running GPU job adds its usage to the pending usage of what it holds. */
    method AddPending(rp: Result, ghost js: seq<Job>)
      requires CoprocsOk() && OneTaskPerResult(tasks) && ResultOk(rp) && PendingIs(js)
      requires JobOk(rp.AsJob(rp in Running()), Sizes())
      modifies coprocs
      ensures CoprocsOk() && PendingIs(js + [rp.AsJob(rp in Running())])
    {
      ghost var j := rp.AsJob(rp in Running());
      assert (js + [j])[..|js|] == js;
      if rp.UsesCoprocs() {
        var atp := LookupActiveTaskByResult(rp);
        if atp != null && atp.taskState == Executing {
          var cp := coprocs[rp.rscType];
          ghost var was := cp.pending;
          IncrementPendingUsage(rp, cp);
          forall i: nat | i < cp.count ensures cp.pending[i] == was[i] + On(j, rp.rscType, i) {
            AddShareIsOn(was, j, i);
          }
        }
      }
    }

    lemma PendingIsInitial(js: seq<Job>)
      requires CoprocsOk() && PendingIs(js)
      ensures Rows() == Initial(Sizes(), js)
    {
      forall t | 0 <= t < |coprocs| ensures Rows()[t] == Initial(Sizes(), js)[t] {
        assert Rows()[t].usage == Initial(Sizes(), js)[t].usage;
        assert Rows()[t].pending == Initial(Sizes(), js)[t].pending;
      }
    }

    lemma AssignableAt(jobs: seq<Result>, run: set<Result>, k: nat)
      requires Assignable(jobs, run) && k < |jobs|
      ensures ResultOk(jobs[k]) && JobOk(jobs[k].AsJob(jobs[k] in run), Sizes())
      ensures AsJobs(jobs, run)[..k + 1] == AsJobs(jobs, run)[..k] + [jobs[k].AsJob(jobs[k] in run)]
    {
      var js := AsJobs(jobs, run);
      assert js[k] == jobs[k].AsJob(jobs[k] in run);
      assert jobs[k] in jobs;
    }

    /** Pending usage of the running jobs. */
    method FillPending(jobs: seq<Result>)
      requires Assignable(jobs, Running())
      modifies coprocs
      ensures CoprocsOk() && Rows() == Initial(Sizes(), AsJobs(jobs, Running()))
    {
      hide ResultOk, JobOk, On, OneTaskPerResult, Initial;
      ClearUsage();
      ghost var js := AsJobs(jobs, Running());
      for k := 0 to |jobs|
        invariant Assignable(jobs, Running()) && js == AsJobs(jobs, Running()) && PendingIs(js[..k])
      {
        AssignableAt(jobs, Running(), k);
        AddPending(jobs[k], js[..k]);
      }
      assert js[..|jobs|] == js;
      PendingIsInitial(js);
    }

    /** Try to give one GPU job its instances.  A running job can only keep
        those it has; another one is placed by its kind of usage. */
    method AssignOne(rp: Result) returns (ok: bool)
      requires CoprocsOk() && OneTaskPerResult(tasks) && ResultOk(rp) && rp.UsesCoprocs()
      requires JobOk(rp.AsJob(rp in Running()), Sizes()) && RowOk(coprocs[rp.rscType].View())
      modifies coprocs[rp.rscType], rp`coprocIndices
      ensures CoprocsOk() && ResultOk(rp)
      ensures var was, j := old(coprocs[rp.rscType].View()), old(rp.AsJob(rp in Running()));
              match Choose(was, j)
              case Some(held) => ok && coprocs[rp.rscType].View() == Charge(was, j, held) && rp.Held() == held
              case None => !ok && coprocs[rp.rscType].View() == was
      ensures !ok || rp in Running() ==> rp.coprocIndices == old(rp.coprocIndices)
    {
      var cp := coprocs[rp.rscType];
      var atp := LookupActiveTaskByResult(rp);
      if atp != null && atp.taskState == Executing {
        TurnedAwayIff(cp.View(), rp.AsJob(true));
        ok := CurrentAssignmentOk(rp, cp);
        if ok {
          ConfirmCurrentAssignment(rp, cp);
        }
      } else if rp.gpuUsage < 1.0 {
        ok := GetFractionalAssignment(rp, cp);
      } else {
        ok := GetIntegerAssignment(rp, cp);
      }
    }

    /** One turn of the loop, as a step of the assignment on values. */
    method AssignTurn(rp: Result, ghost o: Outcome) returns (ok: bool)
      requires CoprocsOk() && OneTaskPerResult(tasks) && ResultOk(rp)
      requires OutcomeOk(o, Sizes()) && o.rows == Rows() && JobOk(rp.AsJob(rp in Running()), Sizes())
      modifies coprocs, rp`coprocIndices
      ensures CoprocsOk() && ResultOk(rp) && Rows() == Step(o, Sizes(), old(rp.AsJob(rp in Running()))).rows
      ensures Step(o, Sizes(), old(rp.AsJob(rp in Running()))).kept ==
              o.kept + if ok then [rp.AsJob(rp in Running())] else []
      ensures Step(o, Sizes(), old(rp.AsJob(rp in Running()))).pruned ==
              o.pruned + if ok then [] else [old(rp.AsJob(rp in Running()))]
      ensures !ok ==> rp.UsesCoprocs()
      ensures !ok || rp in Running() ==> rp.coprocIndices == old(rp.coprocIndices)
    {
      if !rp.UsesCoprocs() {
        return true;
      }
      assert o.rows[rp.rscType] == coprocs[rp.rscType].View();
      ok := AssignOne(rp);
      assert Rows() == Step(o, Sizes(), old(rp.AsJob(rp in Running()))).rows;
    }

    /** Where the loop is after `n` of the jobs: the front of the list holds the
        kept ones, the rest is still to come. */
    static ghost predicate Between(jobs: seq<Result>, n: nat, list: seq<Result>, i: nat) {
      && i <= n <= |jobs| && |list| == i + |jobs| - n && list[i..] == jobs[n..]
      && Distinct(list) && (forall k :: 0 <= k < i ==> list[k] in jobs[..n])
      && (forall r :: r in jobs[..n] && !r.UsesCoprocs() ==> r in list[..i])
    }

    static lemma BetweenStep(jobs: seq<Result>, n: nat, list: seq<Result>, i: nat)
      requires Between(jobs, n, list, i) && i < |list| && Distinct(jobs)
      ensures list[i] == jobs[n]
      ensures Between(jobs, n + 1, list, i + 1)
      ensures jobs[n].UsesCoprocs() ==> Between(jobs, n + 1, list[..i] + list[i + 1..], i)
    {
      assert list[i] == list[i..][0] == jobs[n];
      assert list[i..][1..] == list[i + 1..] && jobs[n..][1..] == jobs[n + 1..];
      assert jobs[..n + 1] == jobs[..n] + [jobs[n]];
      assert list[..i + 1] == list[..i] + [list[i]];
      assert (list[..i] + list[i + 1..])[..i] == list[..i];
    }

    /** The objects after `n` of the jobs, against the values: `o` is the
        outcome so far and `js` the jobs as they were. */
    ghost predicate InStep(jobs: seq<Result>, run: set<Result>, js: seq<Job>, n: nat, list: seq<Result>, i: nat,
                           o: Outcome)
      reads jobs, list, coprocs
    {
      && i <= |list| && n <= |js| == |jobs| && |o.kept| == i
      && o.rows == Rows()
      && (forall k :: 0 <= k < |jobs| ==> ResultOk(jobs[k]))
      && (forall k :: 0 <= k < i ==> o.kept[k] == list[k].AsJob(list[k] in run))
      && (forall k :: 0 <= k < n && jobs[k] !in list[..i] ==> js[k] in o.pruned)
      && (forall k :: n <= k < |jobs| ==> js[k] == jobs[k].AsJob(jobs[k] in run))
    }

    /** One turn of the loop: the next job stays in the list or is erased. */
    method NextJob(jobs: seq<Result>, list: seq<Result>, i: nat, ghost js: seq<Job>, ghost n: nat, ghost o: Outcome)
        returns (list': seq<Result>, i': nat)
      requires CoprocsOk() && OneTaskPerResult(tasks) && Distinct(jobs) && JobsOk(js, Sizes()) && OutcomeOk(o, Sizes())
      requires Between(jobs, n, list, i) && i < |list| && InStep(jobs, Running(), js, n, list, i, o)
      modifies coprocs, {list[i]}`coprocIndices
      ensures CoprocsOk() && Between(jobs, n + 1, list', i') && JobOk(js[n], Sizes())
      ensures InStep(jobs, Running(), js, n + 1, list', i', Step(o, Sizes(), js[n]))
      ensures list[i] !in list' || list[i] in Running() ==> list[i].coprocIndices == old(list[i].coprocIndices)
      ensures forall r :: r in list' ==> r in list
      ensures forall r :: r in list && r != list[i] ==> r in list'
    {
      hide OutcomeOk, JobOk, Step;
      BetweenStep(jobs, n, list, i);
      var rp := list[i];
      assert jobs[n] == rp && js[n] == rp.AsJob(rp in Running()) && JobOk(js[n], Sizes());
      var ok := AssignTurn(rp, o);
      if ok {
        list', i' := list, i + 1;
      } else {
        list', i' := list[..i] + list[i + 1..], i;
      }
      forall k | 0 <= k < i ensures list[k] != rp {
        assert list[k] in jobs[..n];
      }
    }

    /** The loop invariant: list, objects and values agree after `n` jobs. */
    ghost predicate Progress(jobs: seq<Result>, js: seq<Job>, n: nat, list: seq<Result>, i: nat)
      reads this`tasks, tasks`taskState, jobs, list, coprocs
    {
      && CoprocsOk() && OneTaskPerResult(tasks) && Distinct(jobs) && JobsOk(js, Sizes()) && |js| == |jobs|
      && RowsOk(Initial(Sizes(), js), Sizes()) && Between(jobs, n, list, i)
      && InStep(jobs, Running(), js, n, list, i, AssignFrom(Initial(Sizes(), js), Sizes(), js[..n]))
    }

    method NextTurn(jobs: seq<Result>, list: seq<Result>, i: nat, ghost js: seq<Job>, ghost n: nat)
        returns (list': seq<Result>, i': nat)
      requires Progress(jobs, js, n, list, i) && i < |list|
      modifies coprocs, {list[i]}`coprocIndices
      ensures n < |jobs| && list[i] == jobs[n] && Progress(jobs, js, n + 1, list', i')
      ensures jobs[n] !in list' || jobs[n] in Running() ==> jobs[n].coprocIndices == old(jobs[n].coprocIndices)
      ensures forall r :: r in list' ==> r in list
      ensures forall r :: r in list && r != jobs[n] ==> r in list'
    {
      BetweenStep(jobs, n, list, i);
      AssignUnfold(Initial(Sizes(), js), Sizes(), js, n);
      list', i' := NextJob(jobs, list, i, js, n, AssignFrom(Initial(Sizes(), js), Sizes(), js[..n]));
    }

    method StartAssign(jobs: seq<Result>)
      requires Assignable(jobs, Running())
      modifies coprocs
      ensures Progress(jobs, AsJobs(jobs, Running()), 0, jobs, 0)
    {
      FillPending(jobs);
      assert AsJobs(jobs, Running())[..0] == [];
    }

    lemma AssignDone(jobs: seq<Result>, js: seq<Job>, n: nat, list: seq<Result>)
      requires Progress(jobs, js, n, list, |list|)
      ensures Distinct(list) && (forall r :: r in list ==> r in jobs) && (forall r :: r in jobs ==> ResultOk(r))
      ensures AsJobs(list, Running()) == Assign(Sizes(), js).kept && Rows() == Assign(Sizes(), js).rows
      ensures forall r :: r in jobs && !r.UsesCoprocs() ==> r in list
      ensures CoprocsOk() && JobsOk(js, Sizes()) && |js| == |jobs|
      ensures forall k :: 0 <= k < |jobs| && jobs[k] !in list ==> js[k] in Assign(Sizes(), js).pruned
    {
      assert js[..n] == js && jobs[..n] == jobs && list[..|list|] == list;
    }

    /** The list, the instances and the recorded indices are what `Assign` says. */
    ghost predicate AssignedAs(list: seq<Result>, js: seq<Job>)
      requires JobsOk(js, Sizes())
      reads this`tasks, tasks`taskState, list, coprocs
    {
      && CoprocsOk() && (forall r :: r in list ==> ResultOk(r))
      && AsJobs(list, Running()) == Assign(Sizes(), js).kept && Rows() == Assign(Sizes(), js).rows
    }

    lemma UsageIsLoad(list: seq<Result>, js: seq<Job>, t: nat, i: nat)
      requires JobsOk(js, Sizes()) && AssignedAs(list, js) && t < |coprocs| && i < coprocs[t].count
      ensures |coprocs[t].usage| == coprocs[t].count
      ensures coprocs[t].usage[i] == Load(AsJobs(list, Running()), t, i) <= 1.0
    {
      NoInstanceOverused(Sizes(), js, t, i);
      assert Rows()[t] == coprocs[t].View();
    }

    lemma ListIsGiven(list: seq<Result>, js: seq<Job>, k: nat)
      requires JobsOk(js, Sizes()) && AssignedAs(list, js) && k < |list| && list[k].rscType != 0
      ensures list[k].rscType < |coprocs| && Given(coprocs[list[k].rscType], list[k], list[k] in Running())
    {
      var r, t, kept := list[k], list[k].rscType, AsJobs(list, Running());
      assert r in list && kept[k] == r.AsJob(r in Running());
      KeptAreAllowed(Initial(Sizes(), js), Sizes(), js);
      KeptHold(list, js);
      forall i: nat | i in r.Held() && i < coprocs[t].count ensures coprocs[t].usage[i] >= Share(r.gpuUsage) {
        UsageIsLoad(list, js, t, i);
        LoadHas(kept, k, t, i);
      }
      HeldIsGiven(coprocs[t], r, r in Running());
    }

    lemma KeptHold(list: seq<Result>, js: seq<Job>)
      requires JobsOk(js, Sizes()) && AssignedAs(list, js)
      ensures var kept := AsJobs(list, Running());
              forall m :: 0 <= m < |kept| && kept[m].rt != 0 ==>
                && kept[m].rt < |coprocs| && kept[m].usage > 0.0
                && HoldsIn(kept[m].held, kept[m].usage, coprocs[kept[m].rt].count)
    {
      var o := Assign(Sizes(), js);
      forall m | 0 <= m < |o.kept| && o.kept[m].rt != 0
        ensures o.kept[m].rt < |coprocs| && o.kept[m].usage > 0.0
                && HoldsIn(o.kept[m].held, o.kept[m].usage, coprocs[o.kept[m].rt].count)
      {
        assert JobOk(o.kept[m].(running := true), Sizes());
      }
    }

    lemma OtherIsDenied(list: seq<Result>, js: seq<Job>, r: Result)
      requires JobsOk(js, Sizes()) && AssignedAs(list, js) && ResultOk(r)
      requires r.AsJob(r in Running()) in Assign(Sizes(), js).pruned
      ensures r.rscType != 0 && r.rscType < |coprocs| && Denied(coprocs[r.rscType], r, r in Running())
    {
      PruningIsFinal(Initial(Sizes(), js), Sizes(), js);
      var o, j := Assign(Sizes(), js), r.AsJob(r in Running());
      var k :| 0 <= k < |o.pruned| && o.pruned[k] == j;
      assert JobOk(o.pruned[k], Sizes()) && o.pruned[k].rt != 0;
      assert TurnedAway(o.rows[j.rt], j) && o.rows[j.rt] == coprocs[j.rt].View();
      TurnedAwayIsDenied(coprocs[j.rt], r, r in Running());
    }

    /** Jobs that are still to come, erased or running hold what they held. */
    static ghost predicate HoldAsBefore(jobs: seq<Result>, was: seq<seq<nat>>, n: nat, list: seq<Result>,
                                        run: set<Result>)
      reads jobs
    {
      && |was| == |jobs|
      && forall k :: 0 <= k < |jobs| && (n <= k || jobs[k] !in list || jobs[k] in run) ==>
           jobs[k].coprocIndices == was[k]
    }

    method LoopTurn(jobs: seq<Result>, list: seq<Result>, i: nat, ghost js: seq<Job>, ghost n: nat,
                    ghost was: seq<seq<nat>>)
        returns (list': seq<Result>, i': nat)
      requires Progress(jobs, js, n, list, i) && i < |list| && HoldAsBefore(jobs, was, n, list, Running())
      modifies coprocs, (set r | r in jobs)`coprocIndices
      ensures n < |jobs| && Progress(jobs, js, n + 1, list', i') && HoldAsBefore(jobs, was, n + 1, list', Running())
      ensures i' <= |list'|
    {
      BetweenStep(jobs, n, list, i);
      assert jobs[n] in jobs;
      list', i' := NextTurn(jobs, list, i, js, n);
    }

    /** A task of the result executes. */
    ghost predicate Executes(r: Result)
      reads this`tasks, tasks`taskState
    {
      exists t :: t in tasks && t.result == r && t.taskState == Executing
    }

    lemma RunningExecutes(jobs: seq<Result>)
      ensures forall r :: r in jobs ==> (r in Running() <==> Executes(r))
    {
    }

    lemma AllAreGiven(jobs: seq<Result>, list: seq<Result>, js: seq<Job>)
      requires JobsOk(js, Sizes()) && AssignedAs(list, js) && |js| == |jobs|
      requires forall r :: r in jobs ==> ResultOk(r)
      requires forall r :: r in list ==> r in jobs
      requires forall k :: 0 <= k < |jobs| && jobs[k] !in list ==>
                 js[k] == jobs[k].AsJob(jobs[k] in Running()) && js[k] in Assign(Sizes(), js).pruned
      ensures forall r :: r in jobs && r.rscType != 0 ==>
                r.rscType < |coprocs| &&
                if r in list then Given(coprocs[r.rscType], r, r in Running())
                else Denied(coprocs[r.rscType], r, r in Running())
      ensures forall t, i :: 0 <= t < |coprocs| && 0 <= i < |coprocs[t].usage| ==> coprocs[t].usage[i] <= 1.0
    {
      hide *;
      forall r | r in jobs && r.rscType != 0
        ensures r.rscType < |coprocs| &&
                if r in list then Given(coprocs[r.rscType], r, r in Running())
                else Denied(coprocs[r.rscType], r, r in Running())
      {
        if r in list {
          var k :| 0 <= k < |list| && list[k] == r;
          ListIsGiven(list, js, k);
        } else {
          var k :| 0 <= k < |jobs| && jobs[k] == r;
          OtherIsDenied(list, js, r);
        }
      }
      CountsAre(list, js);
      forall t, i | 0 <= t < |coprocs| && 0 <= i < |coprocs[t].usage| ensures coprocs[t].usage[i] <= 1.0 {
        UsageIsLoad(list, js, t, i);
      }
    }

    lemma CountsAre(list: seq<Result>, js: seq<Job>)
      requires JobsOk(js, Sizes()) && AssignedAs(list, js)
      ensures forall t :: 0 <= t < |coprocs| ==> |coprocs[t].usage| == coprocs[t].count
    {
    }

    lemma IsAssigned(list: seq<Result>, js: seq<Job>)
      requires JobsOk(js, Sizes()) && CoprocsOk() && forall r :: r in list ==> ResultOk(r)
      requires AsJobs(list, Running()) == Assign(Sizes(), js).kept && Rows() == Assign(Sizes(), js).rows
      ensures AssignedAs(list, js)
    {
    }

    /** The loop of the assignment. */
    method AssignAll(jobs: seq<Result>, ghost js: seq<Job>) returns (list: seq<Result>)
      requires Assignable(jobs, Running()) && js == AsJobs(jobs, Running())
      modifies coprocs, (set r | r in jobs)`coprocIndices
      ensures CoprocsOk() && Distinct(list) && JobsOk(js, Sizes()) && |js| == |jobs|
      ensures forall r :: r in list ==> r in jobs
      ensures AsJobs(list, Running()) == Assign(Sizes(), js).kept && Rows() == Assign(Sizes(), js).rows
      ensures forall k :: 0 <= k < |jobs| && jobs[k] !in list ==>
                js[k] in Assign(Sizes(), js).pruned && js[k] == jobs[k].AsJob(jobs[k] in Running())
      ensures forall r :: r in jobs ==> ResultOk(r)
      ensures forall r :: r in jobs && (r !in list || r in Running()) ==> r.coprocIndices == old(r.coprocIndices)
      ensures forall r :: r in jobs && !r.UsesCoprocs() ==> r in list
    {
      hide *;
      ghost var was := seq(|jobs|, k requires 0 <= k < |jobs| reads jobs => jobs[k].coprocIndices);
      HeldOf(jobs, js, was);
      StartAssign(jobs);
      HoldStarts(jobs, was);
      ghost var n: nat := 0;
      list := jobs;
      var i: nat := 0;
      while i < |list|
        invariant Progress(jobs, js, n, list, i) && HoldAsBefore(jobs, was, n, list, Running()) && i <= |list|
        decreases |jobs| - n
      {
        list, i := LoopTurn(jobs, list, i, js, n, was);
        n := n + 1;
      }
      AssignDone(jobs, js, n, list);
      HeldStill(jobs, list, js, was, n);
      HoldEnds(jobs, list, was, n);
      forall r | r in jobs && (r !in list || r in Running()) ensures r.coprocIndices == old(r.coprocIndices) {
        var k :| 0 <= k < |jobs| && jobs[k] == r;
        assert was[k] == old(jobs[k].coprocIndices);
      }
    }

    lemma HoldStarts(jobs: seq<Result>, was: seq<seq<nat>>)
      requires |was| == |jobs| && forall k :: 0 <= k < |jobs| ==> was[k] == jobs[k].coprocIndices
      ensures HoldAsBefore(jobs, was, 0, jobs, Running())
    {
    }

    lemma HoldEnds(jobs: seq<Result>, list: seq<Result>, was: seq<seq<nat>>, n: nat)
      requires HoldAsBefore(jobs, was, n, list, Running())
      ensures |was| == |jobs|
      ensures forall k :: 0 <= k < |jobs| && (jobs[k] !in list || jobs[k] in Running()) ==>
                jobs[k].coprocIndices == was[k]
    {
    }

    static ghost predicate HeldIn(jobs: seq<Result>, js: seq<Job>, run: set<Result>, was: seq<seq<nat>>) {
      && |js| == |was| == |jobs|
      && forall k :: 0 <= k < |jobs| ==>
           var r := jobs[k];
           js[k] == Job(r.id, r.rscType, r.gpuUsage, r.excluded, r in run, r.HeldAmong(was[k]))
    }

    lemma HeldOf(jobs: seq<Result>, js: seq<Job>, was: seq<seq<nat>>)
      requires js == AsJobs(jobs, Running()) && |was| == |jobs|
      requires forall k :: 0 <= k < |jobs| ==> was[k] == jobs[k].coprocIndices
      ensures HeldIn(jobs, js, Running(), was)
    {
    }

    lemma HeldStill(jobs: seq<Result>, list: seq<Result>, js: seq<Job>, was: seq<seq<nat>>, n: nat)
      requires HeldIn(jobs, js, Running(), was) && HoldAsBefore(jobs, was, n, list, Running())
      ensures forall k :: 0 <= k < |jobs| && jobs[k] !in list ==> js[k] == jobs[k].AsJob(jobs[k] in Running())
    {
    }

    /** Assign instances to the GPU jobs of the list, and erase from it those
        that get none: those that stay are given what they ask for, and the others
        would still be denied it. */
    method AssignCoprocs(jobs: seq<Result>) returns (list: seq<Result>)
      requires Assignable(jobs, Running())
      modifies coprocs, (set r | r in jobs)`coprocIndices
      ensures CoprocsOk() && Distinct(list) && (forall r :: r in list ==> r in jobs)
      ensures AsJobs(list, Running()) == Assign(Sizes(), old(AsJobs(jobs, Running()))).kept
      ensures Rows() == Assign(Sizes(), old(AsJobs(jobs, Running()))).rows
      ensures forall r :: r in jobs ==> ResultOk(r)
      ensures forall r :: r in jobs && (r !in list || r in Running()) ==> r.coprocIndices == old(r.coprocIndices)
      ensures forall r :: r in jobs && !r.UsesCoprocs() ==> r in list
      ensures forall r :: r in jobs && r.rscType != 0 ==>
                r.rscType < |coprocs| &&
                if r in list then Given(coprocs[r.rscType], r, Executes(r))
                  else Denied(coprocs[r.rscType], r, Executes(r))
      ensures forall t, i :: 0 <= t < |coprocs| && 0 <= i < |coprocs[t].usage| ==> coprocs[t].usage[i] <= 1.0
    {
      hide *;
      ghost var js := AsJobs(jobs, Running());
      list := AssignAll(jobs, js);
      IsAssigned(list, js);
      AllAreGiven(jobs, list, js);
      RunningExecutes(jobs);
    }
  }
}
