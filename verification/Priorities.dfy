/** Project priorities in the selection of jobs (client/cpu_sched.cpp:599-657). */
module Priorities {
  import opened ClientTypes
  import opened Client
  import opened Scheduler
  import opened Selection
  import opened Candidates
  import opened Fairness

  /** Projects that share the CPUs and GPUs. */
  ghost predicate Competes(c: ClientState, env: Env, p: Project)
    reads c`results
  {
    !p.nonCpuIntensive && !p.suspended && exists r :: r in c.results && r.project == p && r in env.runnable
  }

  /** `compute_sched_priority`. */
  function PriorityOf(recTemp: real, recSum: real, share: real, shareFrac: real): real
    requires recSum != 0.0 && (share != 0.0 ==> shareFrac != 0.0)
  {
    if share == 0.0 then -1000.0 - recTemp / recSum else -(recTemp / recSum) / shareFrac
  }

  /** Sums that the priorities are relative to. */
  datatype Sums = Sums(rec: PosReal, share: NonNegReal)

  /** The project's part of the resource shares. */
  function ShareFrac(p: Project, s: Sums): (x: real)
    ensures p.resourceShare > 0.0 && s.share > 0.0 ==> x > 0.0
  {
    if s.share == 0.0 then 0.0
    else
      if p.resourceShare > 0.0 then (WorkPerShare(0.0, s.rec, p.resourceShare, s.share); p.resourceShare / s.share)
        else 0.0
  }

  function Increment(rp: Result, f: Forecast, s: Sums): NonNegReal {
    var x := f.flopsFraction(rp) * s.rec;
    assert x >= 0.0;
    x / 24.0
  }

  function ChargesOf(f: Forecast, s: Sums): Charges {
    Charges(f.rec, (r: Result) => Increment(r, f, s))
  }

  /** The priority of a competing project once the jobs of a list have been charged.
      If no project has a share, it is 0 until the first job of the project. */
  ghost function PriorityAfter(list: seq<Result>, p: Project, f: Forecast, s: Sums): real {
    if s.share == 0.0 && (p.resourceShare > 0.0 || forall r :: r in list ==> r.project != p) then 0.0
    else PriorityOf(WorkOf(list, p, ChargesOf(f, s)), s.rec, p.resourceShare, ShareFrac(p, s))
  }

  lemma PriorityAfterIs(list: seq<Result>, p: Project, f: Forecast, s: Sums)
    requires p.resourceShare > 0.0 && s.share > 0.0
    ensures s.share / s.rec > 0.0
    ensures PriorityAfter(list, p, f, s) == -((WorkOf(list, p, ChargesOf(f, s)) / p.resourceShare) * (s.share / s.rec))
  {
    hide WorkOf;
    WorkPerShare(WorkOf(list, p, ChargesOf(f, s)), s.rec, p.resourceShare, s.share);
    Negated(WorkOf(list, p, ChargesOf(f, s)) / s.rec, p.resourceShare / s.share);
  }

  /** Of two projects, the one of higher priority has had less work for its share. */
  lemma PriorityIsShareOfWork(list: seq<Result>, p: Project, q: Project, f: Forecast, s: Sums)
    requires p.resourceShare > 0.0 && q.resourceShare > 0.0 && s.share > 0.0
    ensures PriorityAfter(list, p, f, s) >= PriorityAfter(list, q, f, s) <==>
            WorkOf(list, p, ChargesOf(f, s)) / p.resourceShare <= WorkOf(list, q, ChargesOf(f, s)) / q.resourceShare
  {
    hide *;
    PriorityAfterIs(list, p, f, s);
    PriorityAfterIs(list, q, f, s);
    ScaleOrder(WorkOf(list, p, ChargesOf(f, s)) / p.resourceShare, WorkOf(list, q, ChargesOf(f, s)) / q.resourceShare,
      s.share / s.rec);
  }

  lemma Negated(x: real, y: real)
    requires y != 0.0
    ensures -x / y == -(x / y)
  {
    assert (-x / y) * y == -x == -(x / y) * y;
  }

  /** A project without a share comes after one with a share exactly while that
      one's work for its share is less than 1000 more than its own work, both
      relative to all work: not always, as intended. */
  lemma ZeroShareIsLowestIff(rec: real, other: real, recSum: real, share: real, shareFrac: real)
    requires recSum > 0.0 && share > 0.0 && shareFrac > 0.0
    ensures PriorityOf(rec, recSum, 0.0, 0.0) < PriorityOf(other, recSum, share, shareFrac)
            <==> (other / recSum) / shareFrac < 1000.0 + rec / recSum
  {
    Negated(other / recSum, shareFrac);
  }

  /** A project with a share of one in 10000, and half of all work, comes after one
      without a share that has had the other half. */
  lemma ZeroShareIsNotLowest()
    ensures PriorityOf(0.5, 1.0, 0.0, 0.0) > PriorityOf(0.5, 1.0, 1.0, 0.0001)
  {
    assert 0.5 / 1.0 == 0.5 && -0.5 / 0.0001 == -5000.0;
  }

  lemma WorkPerShare(rec: real, recSum: real, share: real, shareSum: real)
    requires recSum > 0.0 && share > 0.0 && shareSum > 0.0
    ensures share / shareSum > 0.0 && shareSum / recSum > 0.0
    ensures (rec / recSum) / (share / shareSum) == (rec / share) * (shareSum / recSum)
  {
    var a, b, x, y := rec / recSum, share / shareSum, rec / share, shareSum / recSum;
    assert a * recSum == rec && b * shareSum == share && x * share == rec && y * recSum == shareSum;
    assert b > 0.0 && y > 0.0;
    assert (x * y) * b == a by {
      assert ((x * y) * b) * recSum == x * (b * (y * recSum));
      assert x * (b * (y * recSum)) == x * (b * shareSum) == rec;
    }
  }

  lemma ScaleOrder(a: real, b: real, k: real)
    requires k > 0.0
    ensures a <= b <==> a * k <= b * k
  {
  }

  /** `RESULT::runnable` is false for the jobs of a suspended project. */
  ghost predicate RunnableOk(c: ClientState, env: Env)
    reads c`results
  {
    forall r :: r in c.results && r in env.runnable ==> !r.project.suspended
  }

  method ProjectRunnable(c: ClientState, env: Env, p: Project) returns (yes: bool)
    ensures yes <==> !p.suspended && exists r :: r in c.results && r.project == p && r in env.runnable
  {
    if p.suspended { return false; }
    for i := 0 to |c.results|
      invariant forall k :: 0 <= k < i ==> !(c.results[k].project == p && c.results[k] in env.runnable)
    {
      if c.results[i].project == p && c.results[i] in env.runnable { return true; }
    }
    return false;
  }

  /** The shares of the competing ones of the first `n` projects. */
  ghost function ShareSum(c: ClientState, env: Env, n: nat): NonNegReal
    requires n <= |c.projects|
    reads c`projects, c`results
  {
    if n == 0 then 0.0
    else ShareSum(c, env, n - 1) + if Competes(c, env, c.projects[n - 1]) then c.projects[n - 1].resourceShare else 0.0
  }

  /** Their recent work. */
  ghost function RecSum(c: ClientState, env: Env, f: Forecast, n: nat): NonNegReal
    requires n <= |c.projects|
    reads c`projects, c`results
  {
    if n == 0 then 0.0
    else RecSum(c, env, f, n - 1) + if Competes(c, env, c.projects[n - 1]) then f.rec(c.projects[n - 1]) else 0.0
  }

  ghost function SumsOf(c: ClientState, env: Env, f: Forecast): Sums
    reads c`projects, c`results
  {
    var rec := RecSum(c, env, f, |c.projects|);
    Sums(if rec == 0.0 then 1.0 else rec, ShareSum(c, env, |c.projects|))
  }

  /** The sums take in the projects that are not non-CPU-intensive or suspended and
      have a runnable job. */
  lemma SumsTakeIn(c: ClientState, env: Env, f: Forecast, n: nat)
    requires n < |c.projects|
    ensures ShareSum(c, env, 0) == RecSum(c, env, f, 0) == 0.0
    ensures var p := c.projects[n];
            if !p.nonCpuIntensive && !p.suspended && (exists r :: r in c.results && r.project == p && r in env.runnable)
            then
              && ShareSum(c, env, n + 1) == ShareSum(c, env, n) + p.resourceShare
              && RecSum(c, env, f, n + 1) == RecSum(c, env, f, n) + f.rec(p)
            else
              ShareSum(c, env, n + 1) == ShareSum(c, env, n) && RecSum(c, env, f, n + 1) == RecSum(c, env, f, n)
  {
  }

  lemma {:induction false} ShareIsInSum(c: ClientState, env: Env, k: nat, n: nat)
    requires k < n <= |c.projects| && Competes(c, env, c.projects[k])
    ensures c.projects[k].resourceShare <= ShareSum(c, env, n)
  {
    if k < n - 1 {
      ShareIsInSum(c, env, k, n - 1);
    }
  }

  lemma SharesAreInSum(c: ClientState, env: Env, f: Forecast)
    ensures forall p :: p in c.projects && Competes(c, env, p) ==> p.resourceShare <= SumsOf(c, env, f).share
  {
    forall p | p in c.projects && Competes(c, env, p) ensures p.resourceShare <= SumsOf(c, env, f).share {
      var k :| 0 <= k < |c.projects| && c.projects[k] == p;
      ShareIsInSum(c, env, k, |c.projects|);
    }
  }

  /** The sums, over the projects that compete. */
  method SumShares(c: ClientState, env: Env, f: Forecast) returns (s: Sums)
    requires RunnableOk(c, env)
    modifies c.projects`recTemp
    ensures s == SumsOf(c, env, f)
    ensures forall p :: p in c.projects && Competes(c, env, p) ==> p.recTemp == f.rec(p)
  {
    var rsSum, recSum := 0.0, 0.0;
    for i := 0 to |c.projects|
      invariant rsSum == ShareSum(c, env, i) && recSum == RecSum(c, env, f, i)
      invariant forall k ::
                  0 <= k < i && Competes(c, env, c.projects[k]) ==> c.projects[k].recTemp == f.rec(c.projects[k])
    {
      var p := c.projects[i];
      if p.nonCpuIntensive { continue; }
      var runnable := ProjectRunnable(c, env, p);
      if !runnable { continue; }
      p.recTemp := f.rec(p);
      rsSum := rsSum + p.resourceShare;
      recSum := recSum + p.recTemp;
    }
    s := Sums(if recSum == 0.0 then 1.0 else recSum, rsSum);
  }

  method ComputeSchedPriority(p: Project, recSum: real)
    requires recSum != 0.0 && (p.resourceShare != 0.0 ==> p.resourceShareFrac != 0.0)
    modifies p`schedPriority
    ensures p.schedPriority == PriorityOf(p.recTemp, recSum, p.resourceShare, p.resourceShareFrac)
    ensures p.schedPriority ==
              if p.resourceShare == 0.0 then -1000.0 - p.recTemp / recSum
              else -(p.recTemp / recSum) / p.resourceShareFrac
  {
    var recFrac := p.recTemp / recSum;
    if p.resourceShare == 0.0 {
      p.schedPriority := -1000.0 - recFrac;
    } else {
      p.schedPriority := -recFrac / p.resourceShareFrac;
    }
  }

  method PriceProject(p: Project, f: Forecast, s: Sums)
    requires p.resourceShare >= 0.0
    modifies p`resourceShareFrac, p`schedPriority
    ensures !p.nonCpuIntensive && !p.suspended && p.recTemp == f.rec(p) && p.resourceShare <= s.share ==>
              Priced([], p, f, s)
  {
    if p.nonCpuIntensive || p.suspended || s.share == 0.0 {
      p.resourceShareFrac, p.schedPriority := 0.0, 0.0;
    } else {
      p.resourceShareFrac := p.resourceShare / s.share;
      if p.resourceShare > 0.0 {
        WorkPerShare(p.recTemp, s.rec, p.resourceShare, s.share);
      }
      ComputeSchedPriority(p, s.rec);
    }
  }

  /** The temporary fields of a competing project once the jobs of a list have been charged. */
  ghost predicate Priced(list: seq<Result>, p: Project, f: Forecast, s: Sums)
    reads p`resourceShareFrac, p`recTemp, p`schedPriority
  {
    && p.recTemp == WorkOf(list, p, ChargesOf(f, s)) && p.resourceShareFrac == ShareFrac(p, s)
    && p.schedPriority == PriorityAfter(list, p, f, s) && p.resourceShare <= s.share
  }

  /** Work and priority of every competing project are current. */
  ghost predicate PrioritiesOk(c: ClientState, env: Env, f: Forecast, s: Sums, list: seq<Result>)
    reads c`projects, c`results, c.projects`resourceShareFrac, c.projects`recTemp, c.projects`schedPriority
  {
    forall p :: p in c.projects && Competes(c, env, p) ==> Priced(list, p, f, s)
  }

  /** `project_priority_init`. */
  method ProjectPriorityInit(c: ClientState, env: Env, f: Forecast) returns (s: Sums)
    requires RunnableOk(c, env)
    modifies c.projects`recTemp, c.projects`resourceShareFrac, c.projects`schedPriority
    ensures s == SumsOf(c, env, f) && PrioritiesOk(c, env, f, s, [])
  {
    s := SumShares(c, env, f);
    SharesAreInSum(c, env, f);
    hide Priced;
    for i := 0 to |c.projects|
      invariant forall p :: p in c.projects && Competes(c, env, p) ==> p.recTemp == f.rec(p)
      invariant forall k :: 0 <= k < i && Competes(c, env, c.projects[k]) ==> Priced([], c.projects[k], f, s)
    {
      PriceProject(c.projects[i], f, s);
    }
  }

  /** What the listed jobs of a project take of all peak flops. */
  ghost function FlopsOf(list: seq<Result>, p: Project, f: Forecast): real {
    if list == [] then 0.0
    else
      var r := list[|list| - 1];
      FlopsOf(list[..|list| - 1], p, f) + if r.project == p then f.flopsFraction(r) else 0.0
  }

  lemma OneHourMore(x: real, y: real, z: real)
    ensures x * y / 24.0 + z * y / 24.0 == (x + z) * y / 24.0
  {
  }

  /** The work of a project is its recent work, and an hour of its listed jobs at
      their part of all peak flops. */
  lemma {:induction false} WorkIsCharged(list: seq<Result>, p: Project, f: Forecast, s: Sums)
    ensures WorkOf(list, p, ChargesOf(f, s)) == f.rec(p) + FlopsOf(list, p, f) * s.rec / 24.0
  {
    if list == [] {
      assert 0.0 * s.rec == 0.0;
    } else {
      var front, r := list[..|list| - 1], list[|list| - 1];
      WorkIsCharged(front, p, f, s);
      hide FlopsOf, WorkOf, ChargesOf, Increment;
      assert list == front + [r];
      WorkStep(front, r, p, f, s);
      FlopsStep(front, r, p, f);
      OneHourMore(FlopsOf(front, p, f), s.rec, f.flopsFraction(r));
    }
  }

  lemma WorkStep(list: seq<Result>, r: Result, p: Project, f: Forecast, s: Sums)
    ensures WorkOf(list + [r], p, ChargesOf(f, s)) ==
            WorkOf(list, p, ChargesOf(f, s)) + if r.project == p then f.flopsFraction(r) * s.rec / 24.0 else 0.0
  {
    WorkNext(list, r, p, ChargesOf(f, s));
  }

  lemma FlopsStep(list: seq<Result>, r: Result, p: Project, f: Forecast)
    ensures FlopsOf(list + [r], p, f) == FlopsOf(list, p, f) + if r.project == p then f.flopsFraction(r) else 0.0
  {
    assert (list + [r])[..|list|] == list;
  }

  lemma ChargedPriority(list: seq<Result>, rp: Result, f: Forecast, s: Sums, p: Project)
    ensures WorkOf(list + [rp], p, ChargesOf(f, s)) ==
            WorkOf(list, p, ChargesOf(f, s)) + if rp.project == p then Increment(rp, f, s) else 0.0
    ensures rp.project != p ==> PriorityAfter(list + [rp], p, f, s) == PriorityAfter(list, p, f, s)
    ensures rp.project == p && p.resourceShare <= s.share ==>
              PriorityAfter(list + [rp], p, f, s) ==
              PriorityOf(WorkOf(list + [rp], p, ChargesOf(f, s)), s.rec, p.resourceShare, ShareFrac(p, s))
  {
    WorkNext(list, rp, p, ChargesOf(f, s));
    assert rp in list + [rp];
    assert forall r :: r in list + [rp] <==> r in list || r == rp;
  }

  /** `adjust_rec_sched`: the project is charged for an hour of the job. */
  method AdjustRecSched(c: ClientState, rp: Result, env: Env, f: Forecast, s: Sums, ghost list: seq<Result>)
    requires Consistent(c) && RunnableOk(c, env) && PrioritiesOk(c, env, f, s, list)
    requires rp in c.results && rp in env.runnable && !rp.project.nonCpuIntensive
    modifies rp.project`recTemp, rp.project`schedPriority
    ensures PrioritiesOk(c, env, f, s, list + [rp])
    ensures rp.project.recTemp == old(rp.project.recTemp) + f.flopsFraction(rp) * s.rec / 24.0
  {
    assert Competes(c, env, rp.project) && rp.project in c.projects;
    assert Priced(list, rp.project, f, s);
    hide PriorityAfter, WorkOf, Increment, ChargesOf;
    ChargedPriority(list, rp, f, s, rp.project);
    rp.project.recTemp := rp.project.recTemp + Increment(rp, f, s);
    ComputeSchedPriority(rp.project, s.rec);
    forall p | p in c.projects && Competes(c, env, p) ensures Priced(list + [rp], p, f, s) {
      ChargedPriority(list, rp, f, s, p);
    }
  }
}
