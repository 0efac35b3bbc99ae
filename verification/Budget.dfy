/** `PROC_RESOURCES` (client/cpu_sched.cpp:79-225): the resources that the jobs
    listed so far would use.  A job is listed only if it fits. */
module Budget {
  import opened ClientTypes
  import opened Client
  import opened Scheduler
  import opened Selection

  /** Free share of an instance that a GPU job may use. */
  predicate FitsAt(row: seq<real>, r: Result, i: nat) {
    i < |row| && i !in r.excluded && row[i] + r.gpuUsage <= 1.0
  }

  /** The first instance from `i` on that the job fits on, or the end of the row. */
  function FirstFit(row: seq<real>, r: Result, i: nat): (k: nat)
    requires i <= |row|
    ensures i <= k <= |row| && (k < |row| ==> FitsAt(row, r, k)) && forall m: nat :: i <= m < k ==> !FitsAt(row, r, m)
    decreases |row| - i
  {
    if i == |row| || FitsAt(row, r, i) then i else FirstFit(row, r, i + 1)
  }

  /** The usage of the instances once a job has been given the first that it fits on. */
  function Placed(rows: seq<seq<real>>, r: Result): (rows': seq<seq<real>>)
    ensures |rows'| == |rows| && forall t :: 0 <= t < |rows| ==> |rows'[t]| == |rows[t]|
  {
    if !r.UsesCoprocs() || r.rscType >= |rows| then rows
    else
      var row, k := rows[r.rscType], FirstFit(rows[r.rscType], r, 0);
      if k < |row| then rows[r.rscType := row[k := row[k] + r.gpuUsage]] else rows
  }

  lemma SomeRoom(row: seq<real>, r: Result)
    ensures (exists i :: FitsAt(row, r, i)) <==>
              exists i: nat :: i < |row| && i !in r.excluded && row[i] + r.gpuUsage <= 1.0
  {
    if i: nat :| i < |row| && i !in r.excluded && row[i] + r.gpuUsage <= 1.0 {
      assert FitsAt(row, r, i);
    }
  }

  function FreeRows(c: ClientState): seq<seq<real>> {
    seq(|c.coprocs|, t requires 0 <= t < |c.coprocs| => seq(c.coprocs[t].count, i => 0.0))
  }

  /** The usage of the instances once all jobs of a list have been placed. */
  function RowsAfter(c: ClientState, list: seq<Result>): (rows: seq<seq<real>>)
    ensures |rows| == |c.coprocs| && forall t :: 0 <= t < |rows| ==> |rows[t]| == c.coprocs[t].count
  {
    if list == [] then FreeRows(c) else Placed(RowsAfter(c, list[..|list| - 1]), list[|list| - 1])
  }

  lemma RowsNext(c: ClientState, list: seq<Result>, r: Result)
    ensures RowsAfter(c, list + [r]) == Placed(RowsAfter(c, list), r)
  {
    assert (list + [r])[..|list|] == list;
  }

  /** Whether a job is to be listed after the jobs of a list
      (client/cpu_sched.cpp:122-158). */
  ghost predicate AdmitsAfter(c: ClientState, list: seq<Result>, r: Result, env: Env, f: Forecast)
    reads c`tasks, c.tasks`hasShm
  {
    && !(f.shmemRetry && exists t :: t in c.tasks && t.result == r && !t.hasShm)
    && CostOf(c, r, env).wss <= env.ram - TotalWss(c, list, env) && !f.backedOff(r)
    && if r.UsesCoprocs() then
         !env.gpuSuspended && r.rscType < |c.coprocs| && exists i :: FitsAt(RowsAfter(c, list)[r.rscType], r, i)
       else if r.avgNcpus > 1.0 then MtCpus(list) + r.avgNcpus <= env.ncpus as real
       else StCpus(list) < env.ncpus as real
  }

  class ProcResources {
    const ncpus: nat
    var ncpusUsedSt: real
    var ncpusUsedMt: real
    var ramLeft: real
    var usage: seq<seq<real>>

    constructor (c: ClientState, env: Env)
      ensures Accounts(c, [], env)
      ensures forall t :: 0 <= t < |usage| ==> |usage[t]| == c.coprocs[t].count
    {
      ncpus, ncpusUsedSt, ncpusUsedMt, ramLeft := env.ncpus, 0.0, 0.0, env.ram;
      usage := FreeRows(c);
      new;
      forall t: nat | t < |usage| ensures RowSum(usage[t]) == 0.0 {
        RowSumZero(usage[t]);
      }
    }

    predicate StopScanCpu()
      reads this`ncpusUsedSt
    {
      ncpusUsedSt >= ncpus as real
    }

    /** Every instance of the type is fully used. */
    ghost predicate Full(rt: nat)
      reads this`usage
    {
      rt < |usage| && forall i :: 0 <= i < |usage[rt]| ==> usage[rt][i] >= 1.0
    }

    method StopScanCoproc(rt: nat) returns (stop: bool)
      requires rt < |usage|
      ensures stop <==> Full(rt)
    {
      for i := 0 to |usage[rt]|
        invariant forall k :: 0 <= k < i ==> usage[rt][k] >= 1.0
      {
        if usage[rt][i] < 1.0 { return false; }
      }
      return true;
    }

    method SufficientCoprocs(r: Result) returns (ok: bool)
      requires r.rscType < |usage|
      ensures ok <==> !r.UsesCoprocs() || exists i :: FitsAt(usage[r.rscType], r, i)
    {
      if !r.UsesCoprocs() { return true; }
      for i := 0 to |usage[r.rscType]|
        invariant forall k: nat :: k < i ==> !FitsAt(usage[r.rscType], r, k)
      {
        if i in r.excluded { continue; }
        if usage[r.rscType][i] + r.gpuUsage <= 1.0 {
          assert FitsAt(usage[r.rscType], r, i);
          return true;
        }
      }
      return false;
    }

    /** The job's usage goes to the first instance it fits on. */
    method ReserveCoprocs(r: Result) returns (ghost at: int)
      requires r.rscType < |usage|
      modifies this`usage
      ensures usage == Placed(old(usage), r)
      ensures at >= 0 ==>
                && r.rscType != 0 && at < |old(usage)[r.rscType]| && at !in r.excluded
                && old(usage)[r.rscType][at] + r.gpuUsage <= 1.0
                && forall k: nat :: k < at ==> k in r.excluded || old(usage)[r.rscType][k] + r.gpuUsage > 1.0
      ensures at < 0 && r.rscType != 0 ==>
                forall k: nat :: k < |usage[r.rscType]| ==> k in r.excluded || usage[r.rscType][k] + r.gpuUsage > 1.0
      ensures if at < 0
              then usage == old(usage) && (!r.UsesCoprocs() || forall k: nat :: !FitsAt(old(usage)[r.rscType], r, k))
              else
                && r.UsesCoprocs() && FitsAt(old(usage)[r.rscType], r, at)
                && (forall k: nat :: k < at ==> !FitsAt(old(usage)[r.rscType], r, k))
                && usage == old(usage)[r.rscType := old(usage)[r.rscType][at := old(usage)[r.rscType][at] + r.gpuUsage]]
    {
      if !r.UsesCoprocs() { return -1; }
      for i := 0 to |usage[r.rscType]|
        invariant usage == old(usage) && forall k: nat :: k < i ==> !FitsAt(usage[r.rscType], r, k)
        invariant forall k: nat :: k < i ==> k in r.excluded || usage[r.rscType][k] + r.gpuUsage > 1.0
      {
        if i in r.excluded { continue; }
        if usage[r.rscType][i] + r.gpuUsage > 1.0 { continue; }
        assert FitsAt(usage[r.rscType], r, i) && FirstFit(usage[r.rscType], r, 0) == i;
        usage := usage[r.rscType := usage[r.rscType][i := usage[r.rscType][i] + r.gpuUsage]];
        return i;
      }
      return -1;
    }

    /** Whether a job is to be listed. */
    ghost predicate Admits(c: ClientState, r: Result, env: Env, f: Forecast)
      requires r.rscType < |usage|
      reads this, c`tasks, c.tasks`hasShm
    {
      && !(f.shmemRetry && exists t :: t in c.tasks && t.result == r && !t.hasShm)
      && CostOf(c, r, env).wss <= ramLeft && !f.backedOff(r)
      && if r.UsesCoprocs() then !env.gpuSuspended && exists i :: FitsAt(usage[r.rscType], r, i)
         else if r.avgNcpus > 1.0 then ncpusUsedMt + r.avgNcpus <= ncpus as real
         else ncpusUsedSt < ncpus as real
    }

    method CanSchedule(c: ClientState, rp: Result, atp: ActiveTask?, env: Env, f: Forecast) returns (ok: bool)
      requires rp.rscType < |usage| && OneTaskPerResult(c.tasks)
      requires if atp == null then forall t :: t in c.tasks ==> t.result != rp else atp in c.tasks && atp.result == rp
      ensures ok == Admits(c, rp, env, f)
      ensures ok <==>
                && !(f.shmemRetry && atp != null && !atp.hasShm) && !f.backedOff(rp)
                && (if atp != null then Lookup(env.taskWss, rp) else Lookup(env.versionWss, rp)) <= ramLeft
                && if rp.rscType != 0 then
                     !env.gpuSuspended
                     && exists i: nat :: i < |usage[rp.rscType]| && i !in rp.excluded
                                         && usage[rp.rscType][i] + rp.gpuUsage <= 1.0
                   else if rp.avgNcpus > 1.0 then ncpusUsedMt + rp.avgNcpus <= ncpus as real
                   else ncpusUsedSt < ncpus as real
    {
      SomeRoom(usage[rp.rscType], rp);
      var wss;
      if atp != null {
        assert forall t :: t in c.tasks && t.result == rp ==> t == atp;
        if f.shmemRetry && !atp.hasShm { return false; }
        wss := Lookup(env.taskWss, rp);
      } else {
        wss := Lookup(env.versionWss, rp);
      }
      if wss > ramLeft { return false; }
      if f.backedOff(rp) { return false; }
      if rp.UsesCoprocs() {
        if env.gpuSuspended { return false; }
        ok := SufficientCoprocs(rp);
      } else if rp.avgNcpus > 1.0 {
        ok := ncpusUsedMt + rp.avgNcpus <= ncpus as real;
      } else {
        ok := ncpusUsedSt < ncpus as real;
      }
    }

    ghost predicate RowsWithin()
      reads this
    {
      forall t: nat, i: nat :: t < |usage| && i < |usage[t]| ==> usage[t][i] <= 1.0
    }

    /** What the listed jobs add up to, and the limits they keep to. */
    ghost predicate Accounts(c: ClientState, list: seq<Result>, env: Env)
      reads this, c`tasks
    {
      && ncpus == env.ncpus && |usage| == |c.coprocs|
      && ncpusUsedSt == StCpus(list) && ncpusUsedMt == MtCpus(list) <= ncpus as real
      && ramLeft == env.ram - TotalWss(c, list, env) && (list != [] ==> ramLeft >= 0.0)
      && usage == RowsAfter(c, list) && RowsWithin() && TypeTotals(list)
    }

    /** On each GPU type, all that is reserved belongs to listed jobs. */
    ghost predicate TypeTotals(list: seq<Result>)
      reads this
    {
      forall t: nat :: 0 < t < |usage| ==> RowSum(usage[t]) == TypeUsage(list, t)
    }

    /** The accounts decide as the list does. */
    lemma AdmitsIs(c: ClientState, list: seq<Result>, r: Result, env: Env, f: Forecast)
      requires Accounts(c, list, env) && r.rscType < |usage|
      ensures Admits(c, r, env, f) <==> AdmitsAfter(c, list, r, env, f)
    {
      hide RowSum, TypeUsage, StCpus, MtCpus, TotalWss, CostOf, RowsAfter, FitsAt;
    }

    method Charge(c: ClientState, rp: Result, atp: ActiveTask?, env: Env)
      requires rp.rscType < |usage|
      requires if atp == null then forall t :: t in c.tasks ==> t.result != rp else atp in c.tasks && atp.result == rp
      modifies this`ncpusUsedSt, this`ncpusUsedMt, this`ramLeft
      ensures ncpusUsedMt == old(ncpusUsedMt) + if !rp.UsesCoprocs() && rp.avgNcpus > 1.0 then rp.avgNcpus else 0.0
      ensures ncpusUsedSt == old(ncpusUsedSt) + if !rp.UsesCoprocs() && rp.avgNcpus > 1.0 then 0.0 else rp.avgNcpus
      ensures ramLeft == old(ramLeft) - CostOf(c, rp, env).wss
    {
      if rp.UsesCoprocs() {
        ncpusUsedSt := ncpusUsedSt + rp.avgNcpus;
      } else if rp.avgNcpus > 1.0 {
        ncpusUsedMt := ncpusUsedMt + rp.avgNcpus;
      } else {
        ncpusUsedSt := ncpusUsedSt + rp.avgNcpus;
      }
      var wss;
      if atp != null {
        wss := Lookup(env.taskWss, rp);
      } else {
        wss := Lookup(env.versionWss, rp);
      }
      ramLeft := ramLeft - wss;
    }

    /** `schedule`, without the priority: the accounts take the job in. */
    method Reserve(c: ClientState, rp: Result, atp: ActiveTask?, env: Env, f: Forecast, ghost list: seq<Result>)
      requires rp.rscType < |usage| && Accounts(c, list, env) && Admits(c, rp, env, f)
      requires if atp == null then forall t :: t in c.tasks ==> t.result != rp else atp in c.tasks && atp.result == rp
      modifies this
      ensures Accounts(c, list + [rp], env)
      ensures rp.gpuUsage >= 0.0 ==> forall rt: nat :: old(Full(rt)) ==> Full(rt)
    {
      hide RowSum, TypeUsage, StCpus, MtCpus, TotalWss, CostOf, RowsAfter, Placed;
      SumsNext(c, list, rp, env);
      RowsNext(c, list, rp);
      ghost var at := ReserveCoprocs(rp);
      TotalsNext(old(usage), list, rp, at);
      Charge(c, rp, atp, env);
    }

    lemma TotalsNext(was: seq<seq<real>>, list: seq<Result>, rp: Result, at: int)
      requires rp.rscType < |was| && forall t: nat :: 0 < t < |was| ==> RowSum(was[t]) == TypeUsage(list, t)
      requires if at < 0 then usage == was && !rp.UsesCoprocs()
               else rp.UsesCoprocs() && at < |was[rp.rscType]| &&
                    usage == was[rp.rscType := was[rp.rscType][at := was[rp.rscType][at] + rp.gpuUsage]]
      ensures TypeTotals(list + [rp])
    {
      assert (list + [rp])[..|list|] == list;
      if at >= 0 {
        RowSumUpdate(was[rp.rscType], at, rp.gpuUsage);
      }
    }
  }

  function RowSum(row: seq<real>): real {
    if row == [] then 0.0 else RowSum(row[..|row| - 1]) + row[|row| - 1]
  }

  lemma {:induction false} RowSumUpdate(row: seq<real>, at: nat, x: real)
    requires at < |row|
    ensures RowSum(row[at := row[at] + x]) == RowSum(row) + x
  {
    var front, row' := row[..|row| - 1], row[at := row[at] + x];
    if at == |row| - 1 {
      assert row'[..|row| - 1] == front;
    } else {
      RowSumUpdate(front, at, x);
      assert row'[..|row| - 1] == front[at := front[at] + x];
    }
  }

  /** CPUs of GPU and single-thread jobs, and of multi-thread jobs. */
  function StCpus(list: seq<Result>): real {
    if list == [] then 0.0
    else
      var r := list[|list| - 1];
      StCpus(list[..|list| - 1]) + if !r.UsesCoprocs() && r.avgNcpus > 1.0 then 0.0 else r.avgNcpus
  }

  function MtCpus(list: seq<Result>): real {
    if list == [] then 0.0
    else
      var r := list[|list| - 1];
      MtCpus(list[..|list| - 1]) + if !r.UsesCoprocs() && r.avgNcpus > 1.0 then r.avgNcpus else 0.0
  }

  function TypeUsage(list: seq<Result>, t: nat): real {
    if list == [] then 0.0
    else TypeUsage(list[..|list| - 1], t) + if list[|list| - 1].rscType == t then list[|list| - 1].gpuUsage else 0.0
  }

  ghost function TotalWss(c: ClientState, list: seq<Result>, env: Env): real
    reads c`tasks
  {
    if list == [] then 0.0 else TotalWss(c, list[..|list| - 1], env) + CostOf(c, list[|list| - 1], env).wss
  }

  lemma SumsNext(c: ClientState, list: seq<Result>, rp: Result, env: Env)
    ensures StCpus(list + [rp]) == StCpus(list) + if !rp.UsesCoprocs() && rp.avgNcpus > 1.0 then 0.0 else rp.avgNcpus
    ensures MtCpus(list + [rp]) == MtCpus(list) + if !rp.UsesCoprocs() && rp.avgNcpus > 1.0 then rp.avgNcpus else 0.0
    ensures TotalWss(c, list + [rp], env) == TotalWss(c, list, env) + CostOf(c, rp, env).wss
  {
    assert (list + [rp])[..|list|] == list;
  }

  /** A job's working set is the smoothed one of its task, or else the largest of
      its application version. */
  lemma WorkingSetIs(c: ClientState, r: Result, env: Env)
    ensures CostOf(c, r, env).wss ==
              if exists t :: t in c.tasks && t.result == r then Lookup(env.taskWss, r) else Lookup(env.versionWss, r)
  {
  }

  lemma PlacedIs(rows: seq<seq<real>>, r: Result)
    requires r.rscType < |rows|
    ensures r.rscType == 0 ==> Placed(rows, r) == rows
    ensures var t := r.rscType;
            forall i: nat ::
              && t != 0 && i < |rows[t]| && i !in r.excluded && rows[t][i] + r.gpuUsage <= 1.0
              && (forall m: nat :: m < i ==> m in r.excluded || rows[t][m] + r.gpuUsage > 1.0) ==>
                Placed(rows, r) == rows[t := rows[t][i := rows[t][i] + r.gpuUsage]]
  {
    var t := r.rscType;
    forall i: nat |
      && t != 0 && i < |rows[t]| && i !in r.excluded && rows[t][i] + r.gpuUsage <= 1.0
      && (forall m: nat :: m < i ==> m in r.excluded || rows[t][m] + r.gpuUsage > 1.0)
      ensures Placed(rows, r) == rows[t := rows[t][i := rows[t][i] + r.gpuUsage]]
    {
      FirstIs(rows[t], r, i);
    }
  }

  lemma FirstIs(row: seq<real>, r: Result, i: nat)
    requires i < |row| && i !in r.excluded && row[i] + r.gpuUsage <= 1.0
    requires forall m: nat :: m < i ==> m in r.excluded || row[m] + r.gpuUsage > 1.0
    ensures FirstFit(row, r, 0) == i
  {
    assert FitsAt(row, r, i);
  }

  lemma FreeAtFirst(c: ClientState)
    ensures forall t, i :: 0 <= t < |c.coprocs| && 0 <= i < c.coprocs[t].count ==> RowsAfter(c, [])[t][i] == 0.0
  {
  }

  /** A listed GPU job is put on the first instance that it may use and that has
      room for it; other jobs leave the instances as they are. */
  lemma PlacedOnFirst(c: ClientState, list: seq<Result>, r: Result)
    requires r.rscType < |c.coprocs|
    ensures forall t, i :: 0 <= t < |c.coprocs| && 0 <= i < c.coprocs[t].count ==> RowsAfter(c, [])[t][i] == 0.0
    ensures r.rscType == 0 ==> RowsAfter(c, list + [r]) == RowsAfter(c, list)
    ensures var rows, t := RowsAfter(c, list), r.rscType;
            forall i: nat ::
              && t != 0 && i < |rows[t]| && i !in r.excluded && rows[t][i] + r.gpuUsage <= 1.0
              && (forall m: nat :: m < i ==> m in r.excluded || rows[t][m] + r.gpuUsage > 1.0) ==>
                RowsAfter(c, list + [r]) == rows[t := rows[t][i := rows[t][i] + r.gpuUsage]]
  {
    hide *;
    FreeAtFirst(c);
    RowsNext(c, list, r);
    PlacedIs(RowsAfter(c, list), r);
  }

  // ---- what has been refused stays refused ------------------------------

  /** Neither CPUs nor working sets of the listed jobs are negative. */
  ghost predicate NoneNegative(c: ClientState, list: seq<Result>, env: Env)
    reads c`tasks
  {
    forall r :: r in list ==> r.avgNcpus >= 0.0 && CostOf(c, r, env).wss >= 0.0
  }

  ghost predicate RowsGrow(rows: seq<seq<real>>, rows': seq<seq<real>>) {
    && |rows| == |rows'|
    && forall t: nat :: t < |rows| ==> |rows[t]| == |rows'[t]| && forall i: nat :: i < |rows[t]| ==>
         rows[t][i] <= rows'[t][i]
  }

  lemma {:induction false} SumsGrow(c: ClientState, list: seq<Result>, more: seq<Result>, env: Env)
    requires NoneNegative(c, more, env)
    ensures StCpus(list) <= StCpus(list + more) && MtCpus(list) <= MtCpus(list + more)
    ensures TotalWss(c, list, env) <= TotalWss(c, list + more, env)
    ensures RowsGrow(RowsAfter(c, list), RowsAfter(c, list + more))
    decreases |more|
  {
    if more == [] {
      assert list + more == list;
    } else {
      var front, r := more[..|more| - 1], more[|more| - 1];
      assert list + more == list + front + [r] && r in more;
      SumsGrow(c, list, front, env);
      hide StCpus, MtCpus, TotalWss, CostOf, RowsAfter;
      SumsNext(c, list + front, r, env);
      RowsNext(c, list + front, r);
    }
  }

  /** A job that does not fit after some jobs does not fit after more of them. */
  lemma StillRefused(c: ClientState, list: seq<Result>, more: seq<Result>, r: Result, env: Env, f: Forecast)
    requires NoneNegative(c, more, env) && !AdmitsAfter(c, list, r, env, f)
    ensures !AdmitsAfter(c, list + more, r, env, f)
  {
    hide StCpus, MtCpus, TotalWss, CostOf, RowsAfter;
    SumsGrow(c, list, more, env);
    if r.UsesCoprocs() && r.rscType < |c.coprocs| {
      var row, row' := RowsAfter(c, list)[r.rscType], RowsAfter(c, list + more)[r.rscType];
      if i :| FitsAt(row', r, i) { assert FitsAt(row, r, i); }
    }
  }

  lemma {:induction false} RowSumZero(row: seq<real>)
    requires forall i :: 0 <= i < |row| ==> row[i] == 0.0
    ensures RowSum(row) == 0.0
  {
    if row != [] {
      RowSumZero(row[..|row| - 1]);
    }
  }
}
