/** How `assign_coprocs` gives GPU instances to jobs, on values.

    A resource type is a row of instances, each with the usage already
    confirmed in this pass and the usage still pending for running jobs
    (client/cpu_sched.cpp:1033-1068).  `Coprocs` runs the same algorithm in
    place on the arrays and is proved against `Assign`. */
module GpuAssignment {
  import opened Lists
  import opened Wrappers

  /** What the assignment reads of a job.  `held` are the instances recorded
      in `coproc_indices`; they mean something only while the job is running
      or has just been assigned. */
  datatype Job = Job(id: nat, rt: nat, usage: real, excluded: set<nat>, running: bool, held: seq<nat>)

  /** One resource type: usage and pending usage of each instance. */
  datatype Row = Row(usage: seq<real>, pending: seq<real>)

  datatype Outcome = Outcome(rows: seq<Row>, kept: seq<Job>, pruned: seq<Job>)

  /** A job uses a fraction of one instance or a whole number of instances. */
  predicate UsageOk(usage: real) {
    0.0 < usage && (usage < 1.0 || usage.Floor as real == usage)
  }

  function Share(usage: real): real {
    if usage < 1.0 then usage else 1.0
  }

  /** Number of turns of a loop `for (i=0; i<usage; i++)`. */
  function Count(usage: real): nat
    requires 0.0 < usage
  {
    if usage < 1.0 then 1 else usage.Floor
  }

  ghost predicate HoldsIn(held: seq<nat>, usage: real, n: nat) {
    0.0 < usage && |held| == Count(usage) && Distinct(held) && forall k :: 0 <= k < |held| ==> held[k] < n
  }

  ghost predicate RowOk(r: Row) {
    |r.usage| == |r.pending| && forall i :: 0 <= i < |r.usage| ==> r.usage[i] >= 0.0
  }

  /** `sizes[t]` is the number of instances of resource type `t`; type 0 is the CPU. */
  ghost predicate JobOk(j: Job, sizes: seq<nat>) {
    j.rt != 0 ==>
      j.rt < |sizes| && UsageOk(j.usage) && (j.running ==> HoldsIn(j.held, j.usage, sizes[j.rt]))
  }

  ghost predicate JobsOk(jobs: seq<Job>, sizes: seq<nat>) {
    forall k :: 0 <= k < |jobs| ==> JobOk(jobs[k], sizes)
  }

  ghost predicate RowsOk(rows: seq<Row>, sizes: seq<nat>) {
    |rows| == |sizes| && forall t :: 0 <= t < |rows| ==> RowOk(rows[t]) && |rows[t].usage| == sizes[t]
  }

  // ---- one job ----------------------------------------------------------

  function AddShare(s: seq<real>, held: seq<nat>, x: real): (r: seq<real>)
    requires forall k :: 0 <= k < |held| ==> held[k] < |s|
    ensures |r| == |s|
  {
    seq(|s|, i requires 0 <= i < |s| => if i in held then s[i] + x else s[i])
  }

  predicate Conflict(r: Row, j: Job)
    requires forall k :: 0 <= k < |j.held| ==> j.held[k] < |r.usage|
  {
    exists k :: 0 <= k < |j.held| && r.usage[j.held[k]] + Share(j.usage) > 1.0
  }

  predicate Shareable(r: Row, j: Job, i: nat)
    requires i < |r.usage| == |r.pending|
  {
    i !in j.excluded && (r.usage[i] != 0.0 || r.pending[i] != 0.0) && r.usage[i] + r.pending[i] + j.usage <= 1.0
  }

  predicate Free(r: Row, j: Job, i: nat)
    requires i < |r.usage|
  {
    i !in j.excluded && r.usage[i] == 0.0
  }

  /** First instance from `i` on that already carries a fractional job and has room. */
  function FirstShareable(r: Row, j: Job, i: nat): (o: Option<nat>)
    requires i <= |r.usage| == |r.pending|
    ensures o.Some? ==> i <= o.value < |r.usage| && Shareable(r, j, o.value)
    ensures forall k :: i <= k < (if o.Some? then o.value else |r.usage|) ==> !Shareable(r, j, k)
    decreases |r.usage| - i
  {
    if i == |r.usage| then None else if Shareable(r, j, i) then Some(i) else FirstShareable(r, j, i + 1)
  }

  function FirstFree(r: Row, j: Job, i: nat): (o: Option<nat>)
    requires i <= |r.usage|
    ensures o.Some? ==> i <= o.value < |r.usage| && Free(r, j, o.value)
    ensures forall k :: i <= k < (if o.Some? then o.value else |r.usage|) ==> !Free(r, j, k)
    decreases |r.usage| - i
  {
    if i == |r.usage| then None else if Free(r, j, i) then Some(i) else FirstFree(r, j, i + 1)
  }

  /** The free instances below `n`, in order: those with no pending usage
      (`idle`) or those that a running job may still claim. */
  function FreeBelow(r: Row, j: Job, idle: bool, n: nat): (s: seq<nat>)
    requires n <= |r.usage| == |r.pending|
    ensures forall k :: 0 <= k < |s| ==> s[k] < n && Free(r, j, s[k]) && (r.pending[s[k]] == 0.0) == idle
  {
    if n == 0 then []
    else
      var s := FreeBelow(r, j, idle, n - 1);
      if Free(r, j, n - 1) && (r.pending[n - 1] == 0.0) == idle then s + [n - 1] else s
  }

  lemma {:induction false} FreeBelowDistinct(r: Row, j: Job, idle: bool, n: nat)
    requires n <= |r.usage| == |r.pending|
    ensures Distinct(FreeBelow(r, j, idle, n))
  {
    if n > 0 {
      FreeBelowDistinct(r, j, idle, n - 1);
    }
  }

  lemma {:induction false} FreeBelowHas(r: Row, j: Job, idle: bool, n: nat, i: nat)
    requires i < n <= |r.usage| == |r.pending| && Free(r, j, i) && (r.pending[i] == 0.0) == idle
    ensures i in FreeBelow(r, j, idle, n)
  {
    if i < n - 1 {
      FreeBelowHas(r, j, idle, n - 1, i);
    }
  }

  function Candidates(r: Row, j: Job): (s: seq<nat>)
    requires |r.usage| == |r.pending|
    ensures forall k :: 0 <= k < |s| ==> s[k] < |r.usage| && Free(r, j, s[k])
  {
    FreeBelow(r, j, true, |r.usage|) + FreeBelow(r, j, false, |r.usage|)
  }

  /** The instances a job gets against the present row, if it gets any. */
  function Choose(r: Row, j: Job): (o: Option<seq<nat>>)
    requires |r.usage| == |r.pending| && 0.0 < j.usage
    requires j.running ==> forall k :: 0 <= k < |j.held| ==> j.held[k] < |r.usage|
    ensures o.Some? ==> forall k :: 0 <= k < |o.value| ==> o.value[k] < |r.usage|
  {
    if j.running then
      if Conflict(r, j) then None else Some(j.held)
    else if j.usage < 1.0 then
      match FirstShareable(r, j, 0)
      case Some(i) => Some([i])
      case None =>
        (match FirstFree(r, j, 0)
         case Some(i) => Some([i])
         case None => None)
    else if |Candidates(r, j)| < Count(j.usage) then None
    else Some(Candidates(r, j)[..Count(j.usage)])
  }

  /** The row after job `j` has been given `held`. */
  function Charge(r: Row, j: Job, held: seq<nat>): (r': Row)
    requires |r.usage| == |r.pending|
    requires forall k :: 0 <= k < |held| ==> held[k] < |r.usage|
    ensures |r'.usage| == |r'.pending| == |r.usage|
  {
    Row(AddShare(r.usage, held, Share(j.usage)),
        if j.running then AddShare(r.pending, held, -Share(j.usage)) else r.pending)
  }

  lemma ChooseInRange(r: Row, j: Job)
    requires RowOk(r) && UsageOk(j.usage)
    requires j.running ==> HoldsIn(j.held, j.usage, |r.usage|)
    ensures Choose(r, j).Some? ==> HoldsIn(Choose(r, j).value, j.usage, |r.usage|)
  {
    if !j.running && j.usage >= 1.0 && Choose(r, j).Some? {
      var c := Candidates(r, j);
      FreeBelowDistinct(r, j, true, |r.usage|);
      FreeBelowDistinct(r, j, false, |r.usage|);
      forall a, b | 0 <= a < b < |c| ensures c[a] != c[b] {
        var n := |FreeBelow(r, j, true, |r.usage|)|;
        if a < n <= b {
          assert c[a] in FreeBelow(r, j, true, |r.usage|) && c[b] in FreeBelow(r, j, false, |r.usage|);
        }
      }
      forall k | 0 <= k < |c| ensures c[k] < |r.usage| {
        assert c[k] in FreeBelow(r, j, true, |r.usage|) || c[k] in FreeBelow(r, j, false, |r.usage|);
      }
    }
  }

  // ---- the whole list ---------------------------------------------------

  ghost predicate OutcomeOk(o: Outcome, sizes: seq<nat>) {
    && RowsOk(o.rows, sizes)
    && (forall k :: 0 <= k < |o.kept| ==> JobOk(o.kept[k].(running := true), sizes))
    && (forall k :: 0 <= k < |o.pruned| ==> o.pruned[k].rt != 0 && JobOk(o.pruned[k], sizes))
  }

  /** One turn of the assignment loop: the next job is kept or pruned. */
  function Step(o: Outcome, ghost sizes: seq<nat>, j: Job): (o': Outcome)
    requires OutcomeOk(o, sizes) && JobOk(j, sizes)
    ensures OutcomeOk(o', sizes)
  {
    if j.rt == 0 then o.(kept := o.kept + [j])
    else
      var r := o.rows[j.rt];
      ChooseInRange(r, j);
      match Choose(r, j)
      case Some(held) => Outcome(o.rows[j.rt := Charge(r, j, held)], o.kept + [j.(held := held)], o.pruned)
      case None => o.(pruned := o.pruned + [j])
  }

  /** The assignment loop over a job list. */
  function AssignFrom(rows: seq<Row>, ghost sizes: seq<nat>, jobs: seq<Job>): (o: Outcome)
    requires RowsOk(rows, sizes) && JobsOk(jobs, sizes)
    ensures OutcomeOk(o, sizes)
    decreases |jobs|
  {
    if jobs == [] then Outcome(rows, [], [])
    else
      assert JobOk(jobs[|jobs| - 1], sizes);
      Step(AssignFrom(rows, sizes, jobs[..|jobs| - 1]), sizes, jobs[|jobs| - 1])
  }

  /** Usage that a job puts on instance `i` of type `t`. */
  function On(j: Job, t: nat, i: nat): real {
    if t != 0 && j.rt == t && i in j.held then Share(j.usage) else 0.0
  }

  function Load(jobs: seq<Job>, t: nat, i: nat): real {
    if jobs == [] then 0.0 else Load(jobs[..|jobs| - 1], t, i) + On(jobs[|jobs| - 1], t, i)
  }

  function RunningLoad(jobs: seq<Job>, t: nat, i: nat): real {
    if jobs == [] then 0.0
    else RunningLoad(jobs[..|jobs| - 1], t, i) + if jobs[|jobs| - 1].running then On(jobs[|jobs| - 1], t, i) else 0.0
  }

  /** Cleared usage, and as pending usage what the running jobs hold. */
  function Initial(sizes: seq<nat>, jobs: seq<Job>): seq<Row> {
    seq(|sizes|, t requires 0 <= t < |sizes| =>
      Row(seq(sizes[t], i => 0.0), seq(sizes[t], i requires 0 <= i => RunningLoad(jobs, t, i))))
  }

  /** `assign_coprocs` (client/cpu_sched.cpp:1331-1411). */
  function Assign(sizes: seq<nat>, jobs: seq<Job>): Outcome
    requires JobsOk(jobs, sizes)
  {
    AssignFrom(Initial(sizes, jobs), sizes, jobs)
  }

  // ---- safety: no instance over-used ------------------------------------

  lemma {:induction false} RunningLoadGrows(jobs: seq<Job>, n: nat, sizes: seq<nat>, t: nat, i: nat)
    requires n <= |jobs| && JobsOk(jobs, sizes)
    ensures RunningLoad(jobs[..n], t, i) <= RunningLoad(jobs, t, i)
    decreases |jobs|
  {
    if n < |jobs| {
      var front := jobs[..|jobs| - 1];
      assert JobOk(jobs[|jobs| - 1], sizes);
      assert front[..n] == jobs[..n];
      RunningLoadGrows(front, n, sizes, t, i);
    } else {
      assert jobs[..n] == jobs;
    }
  }

  lemma LoadStep(jobs: seq<Job>, j: Job, t: nat, i: nat)
    ensures Load(jobs + [j], t, i) == Load(jobs, t, i) + On(j, t, i)
  {
    assert (jobs + [j])[..|jobs|] == jobs;
  }

  /** Half-way through the list: confirmed usage is what the kept jobs hold
      and is at most 1, and the pending usage still covers the running jobs
      that have not been looked at. */
  ghost predicate Halfway(sizes: seq<nat>, jobs: seq<Job>, n: nat, o: Outcome)
    requires n <= |jobs| && RowsOk(o.rows, sizes)
  {
    forall t: nat, i: nat :: t < |sizes| && i < sizes[t] ==>
      && o.rows[t].usage[i] <= 1.0
      && o.rows[t].usage[i] == Load(o.kept, t, i)
      && o.rows[t].pending[i] >= RunningLoad(jobs, t, i) - RunningLoad(jobs[..n], t, i)
  }

  lemma ChargeIsSafe(r: Row, j: Job, i: nat)
    requires RowOk(r) && UsageOk(j.usage) && j.rt != 0 && i < |r.usage|
    requires j.running ==> HoldsIn(j.held, j.usage, |r.usage|)
    requires r.usage[i] <= 1.0 && r.pending[i] >= 0.0 && Choose(r, j).Some?
    ensures HoldsIn(Choose(r, j).value, j.usage, |r.usage|)
    ensures var held := Choose(r, j).value; var r' := Charge(r, j, held);
            && r'.usage[i] == r.usage[i] + On(j.(held := held), j.rt, i) <= 1.0
            && r'.pending[i] == r.pending[i] - if j.running then On(j, j.rt, i) else 0.0
  {
    ChooseInRange(r, j);
    var held := Choose(r, j).value;
    if i in held && !j.running && j.usage >= 1.0 {
      assert i in Candidates(r, j);
      assert Free(r, j, i);
    }
  }

  lemma HalfwayStep(sizes: seq<nat>, jobs: seq<Job>, n: nat, o: Outcome)
    requires n < |jobs| && JobsOk(jobs, sizes) && OutcomeOk(o, sizes) && Halfway(sizes, jobs, n, o)
    requires JobOk(jobs[n], sizes)
    ensures Halfway(sizes, jobs, n + 1, Step(o, sizes, jobs[n]))
  {
    var j, o' := jobs[n], Step(o, sizes, jobs[n]);
    forall t: nat, i: nat | t < |sizes| && i < sizes[t]
      ensures o'.rows[t].usage[i] <= 1.0 && o'.rows[t].usage[i] == Load(o'.kept, t, i)
      ensures o'.rows[t].pending[i] >= RunningLoad(jobs, t, i) - RunningLoad(jobs[..n + 1], t, i)
    {
      assert jobs[..n + 1][..n] == jobs[..n];
      RunningLoadGrows(jobs, n + 1, sizes, t, i);
      RunningLoadGrows(jobs, n, sizes, t, i);
      if j.rt == 0 {
        LoadStep(o.kept, j, t, i);
      } else if Choose(o.rows[j.rt], j).Some? {
        LoadStep(o.kept, j.(held := Choose(o.rows[j.rt], j).value), t, i);
        if t == j.rt {
          ChargeIsSafe(o.rows[t], j, i);
        }
      }
    }
  }

  lemma InitialHalfway(sizes: seq<nat>, jobs: seq<Job>)
    ensures RowsOk(Initial(sizes, jobs), sizes)
    ensures Halfway(sizes, jobs, 0, Outcome(Initial(sizes, jobs), [], []))
  {
  }

  lemma {:induction false} AssignHalfway(sizes: seq<nat>, jobs: seq<Job>, n: nat)
    requires n <= |jobs| && JobsOk(jobs, sizes)
    ensures RowsOk(Initial(sizes, jobs), sizes)
    ensures Halfway(sizes, jobs, n, AssignFrom(Initial(sizes, jobs), sizes, jobs[..n]))
  {
    hide JobOk, Halfway, Step;
    InitialHalfway(sizes, jobs);
    var rows := Initial(sizes, jobs);
    if n > 0 {
      AssignHalfway(sizes, jobs, n - 1);
      AssignUnfold(rows, sizes, jobs, n - 1);
      HalfwayStep(sizes, jobs, n - 1, AssignFrom(rows, sizes, jobs[..n - 1]));
    }
  }

  lemma AssignUnfold(rows: seq<Row>, sizes: seq<nat>, jobs: seq<Job>, n: nat)
    requires n < |jobs| && RowsOk(rows, sizes) && JobsOk(jobs, sizes)
    ensures JobOk(jobs[n], sizes)
    ensures AssignFrom(rows, sizes, jobs[..n + 1]) == Step(AssignFrom(rows, sizes, jobs[..n]), sizes, jobs[n])
  {
    assert jobs[..n + 1][..n] == jobs[..n];
  }

  /** After the pass, the usage on every instance is exactly what the kept
      jobs hold there, and never above 1. */
  lemma NoInstanceOverused(sizes: seq<nat>, jobs: seq<Job>, t: nat, i: nat)
    requires JobsOk(jobs, sizes) && t < |sizes| && i < sizes[t]
    ensures Assign(sizes, jobs).rows[t].usage[i] == Load(Assign(sizes, jobs).kept, t, i) <= 1.0
  {
    AssignHalfway(sizes, jobs, |jobs|);
    assert jobs[..|jobs|] == jobs;
  }

  // ---- maximality: a pruned job would be pruned again -------------------

  /** Usage never falls on an instance, and neither does usage plus pending usage. */
  ghost predicate Fuller(r: Row, r': Row) {
    && |r.usage| == |r.pending| == |r'.usage| == |r'.pending|
    && forall i :: 0 <= i < |r.usage| ==>
         r.usage[i] <= r'.usage[i] && r.usage[i] + r.pending[i] <= r'.usage[i] + r'.pending[i]
  }

  function FreeCount(r: Row, j: Job, n: nat): nat
    requires n <= |r.usage|
  {
    if n == 0 then 0 else FreeCount(r, j, n - 1) + if Free(r, j, n - 1) then 1 else 0
  }

  lemma {:induction false} FreeSplit(r: Row, j: Job, n: nat)
    requires n <= |r.usage| == |r.pending|
    ensures |FreeBelow(r, j, true, n)| + |FreeBelow(r, j, false, n)| == FreeCount(r, j, n)
  {
    if n > 0 {
      FreeSplit(r, j, n - 1);
    }
  }

  lemma {:induction false} FreeCountFalls(r: Row, r': Row, j: Job, n: nat)
    requires RowOk(r) && Fuller(r, r') && n <= |r.usage|
    ensures FreeCount(r', j, n) <= FreeCount(r, j, n)
  {
    if n > 0 {
      FreeCountFalls(r, r', j, n - 1);
      assert r.usage[n - 1] <= r'.usage[n - 1];
    }
  }

  /** What it means to be turned away: a running job conflicts on an instance
      it holds, a fractional job would pass 1 on every instance it may use,
      and a whole-instance job finds too few free ones. */
  ghost predicate TurnedAway(r: Row, j: Job)
    requires |r.usage| == |r.pending| && 0.0 < j.usage
    requires j.running ==> forall k :: 0 <= k < |j.held| ==> j.held[k] < |r.usage|
  {
    if j.running then exists k :: 0 <= k < |j.held| && r.usage[j.held[k]] + Share(j.usage) > 1.0
    else if j.usage < 1.0 then
      forall i :: 0 <= i < |r.usage| && i !in j.excluded ==>
        r.usage[i] != 0.0 && r.usage[i] + r.pending[i] + j.usage > 1.0
    else FreeCount(r, j, |r.usage|) < Count(j.usage)
  }

  lemma TurnedAwayIff(r: Row, j: Job)
    requires |r.usage| == |r.pending| && 0.0 < j.usage
    requires j.running ==> forall k :: 0 <= k < |j.held| ==> j.held[k] < |r.usage|
    ensures Choose(r, j).None? <==> TurnedAway(r, j)
  {
    FreeSplit(r, j, |r.usage|);
    if !j.running && j.usage < 1.0 {
      if Choose(r, j).None? {
        forall i | 0 <= i < |r.usage| && i !in j.excluded
          ensures r.usage[i] != 0.0 && r.usage[i] + r.pending[i] + j.usage > 1.0
        {
          assert !Free(r, j, i) && !Shareable(r, j, i);
        }
      } else {
        assert Free(r, j, Choose(r, j).value[0]) || Shareable(r, j, Choose(r, j).value[0]);
      }
    }
  }

  lemma StillTurnedAway(r: Row, r': Row, j: Job)
    requires RowOk(r) && Fuller(r, r') && 0.0 < j.usage
    requires j.running ==> forall k :: 0 <= k < |j.held| ==> j.held[k] < |r.usage|
    requires TurnedAway(r, j)
    ensures TurnedAway(r', j)
  {
    if j.running {
      var k :| 0 <= k < |j.held| && r.usage[j.held[k]] + Share(j.usage) > 1.0;
      assert r.usage[j.held[k]] <= r'.usage[j.held[k]];
    } else if j.usage < 1.0 {
      forall i | 0 <= i < |r'.usage| && i !in j.excluded
        ensures r'.usage[i] != 0.0 && r'.usage[i] + r'.pending[i] + j.usage > 1.0
      {
        assert r.usage[i] <= r'.usage[i] && r.usage[i] != 0.0;
      }
    } else {
      FreeCountFalls(r, r', j, |r.usage|);
    }
  }

  lemma StepFuller(o: Outcome, sizes: seq<nat>, j: Job, t: nat)
    requires OutcomeOk(o, sizes) && JobOk(j, sizes) && t < |sizes|
    ensures Fuller(o.rows[t], Step(o, sizes, j).rows[t])
  {
    if j.rt == t != 0 {
      ChooseInRange(o.rows[t], j);
    }
  }

  ghost predicate AllTurnedAway(o: Outcome, sizes: seq<nat>)
    requires OutcomeOk(o, sizes)
  {
    forall k :: 0 <= k < |o.pruned| ==>
      var p := o.pruned[k]; JobOk(p, sizes) && p.rt != 0 && TurnedAway(o.rows[p.rt], p)
  }

  lemma PrunedStep(o: Outcome, sizes: seq<nat>, j: Job)
    requires OutcomeOk(o, sizes) && JobOk(j, sizes) && AllTurnedAway(o, sizes)
    ensures AllTurnedAway(Step(o, sizes, j), sizes)
  {
    var o' := Step(o, sizes, j);
    forall k | 0 <= k < |o'.pruned|
      ensures var p := o'.pruned[k]; JobOk(p, sizes) && p.rt != 0 && TurnedAway(o'.rows[p.rt], p)
    {
      var p := o'.pruned[k];
      assert JobOk(p, sizes) && p.rt != 0;
      if k < |o.pruned| {
        assert p == o.pruned[k];
        StepFuller(o, sizes, j, p.rt);
        StillTurnedAway(o.rows[p.rt], o'.rows[p.rt], p);
      } else {
        TurnedAwayIff(o.rows[p.rt], p);
      }
    }
  }

  /** Every pruned job would be turned away again if it were offered at the
      end of the pass: nothing admissible is left out. */
  lemma {:induction false} PruningIsFinal(rows: seq<Row>, sizes: seq<nat>, jobs: seq<Job>)
    requires RowsOk(rows, sizes) && JobsOk(jobs, sizes)
    ensures AllTurnedAway(AssignFrom(rows, sizes, jobs), sizes)
    decreases |jobs|
  {
    if jobs != [] {
      PruningIsFinal(rows, sizes, jobs[..|jobs| - 1]);
      assert JobOk(jobs[|jobs| - 1], sizes);
      PrunedStep(AssignFrom(rows, sizes, jobs[..|jobs| - 1]), sizes, jobs[|jobs| - 1]);
    }
  }

  // ---- a kept job is where it may be ------------------------------------

  lemma ChosenAreAllowed(r: Row, j: Job)
    requires |r.usage| == |r.pending| && 0.0 < j.usage && !j.running && Choose(r, j).Some?
    ensures forall i :: i in Choose(r, j).value ==> i !in j.excluded
  {
    if j.usage >= 1.0 {
      assert forall k :: 0 <= k < |Candidates(r, j)| ==> Free(r, j, Candidates(r, j)[k]);
    }
  }

  ghost predicate AllAllowed(kept: seq<Job>) {
    forall k :: 0 <= k < |kept| && kept[k].rt != 0 && !kept[k].running ==>
      forall i :: i in kept[k].held ==> i !in kept[k].excluded
  }

  /** A kept job that is not running gets none of the instances it is kept off. */
  lemma {:induction false} KeptAreAllowed(rows: seq<Row>, sizes: seq<nat>, jobs: seq<Job>)
    requires RowsOk(rows, sizes) && JobsOk(jobs, sizes)
    ensures AllAllowed(AssignFrom(rows, sizes, jobs).kept)
    decreases |jobs|
  {
    if jobs != [] {
      var j, o := jobs[|jobs| - 1], AssignFrom(rows, sizes, jobs[..|jobs| - 1]);
      KeptAreAllowed(rows, sizes, jobs[..|jobs| - 1]);
      assert JobOk(j, sizes);
      if j.rt != 0 && !j.running && Choose(o.rows[j.rt], j).Some? {
        ChosenAreAllowed(o.rows[j.rt], j);
      }
    }
  }

  lemma {:induction false} LoadHas(jobs: seq<Job>, k: nat, t: nat, i: nat)
    requires k < |jobs| && forall m :: 0 <= m < |jobs| ==> jobs[m].rt != 0 ==> jobs[m].usage > 0.0
    ensures Load(jobs, t, i) >= On(jobs[k], t, i) && Load(jobs, t, i) >= 0.0
  {
    var front := jobs[..|jobs| - 1];
    if k < |front| {
      LoadHas(front, k, t, i);
    } else if front != [] {
      LoadHas(front, 0, t, i);
    }
  }

  lemma {:induction false} LoadHasBoth(jobs: seq<Job>, k: nat, l: nat, t: nat, i: nat)
    requires k < l < |jobs| && forall m :: 0 <= m < |jobs| ==> jobs[m].rt != 0 ==> jobs[m].usage > 0.0
    ensures Load(jobs, t, i) >= On(jobs[k], t, i) + On(jobs[l], t, i)
  {
    var front := jobs[..|jobs| - 1];
    if l < |front| {
      LoadHasBoth(front, k, l, t, i);
    } else {
      LoadHas(front, k, t, i);
    }
  }

  lemma FreeCountNext(row: Row, j: Job, n: nat)
    requires 0 < n <= |row.usage|
    ensures FreeCount(row, j, n) == FreeCount(row, j, n - 1) + if Free(row, j, n - 1) then 1 else 0
  {
  }

  lemma {:induction false} FreeCountIs(row: Row, j: Job, n: nat)
    requires n <= |row.usage|
    ensures FreeCount(row, j, n) == |set i: nat | i < n && i !in j.excluded && row.usage[i] == 0.0|
  {
    if n > 0 {
      FreeCountIs(row, j, n - 1);
      hide FreeCount;
      var before := set i: nat | i < n - 1 && i !in j.excluded && row.usage[i] == 0.0;
      var now := set i: nat | i < n && i !in j.excluded && row.usage[i] == 0.0;
      assert now == before + if Free(row, j, n - 1) then {n - 1} else {};
      FreeCountNext(row, j, n);
    }
  }

  // ---- whole-instance jobs ----------------------------------------------

  /** A fractional job gets the first instance that already carries fractional load and
      has room for it, or else the first free one, of those it may use. */
  lemma FractionalInstance(r: Row, j: Job)
    requires RowOk(r) && 0.0 < j.usage < 1.0 && !j.running && Choose(r, j).Some?
    ensures |Choose(r, j).value| == 1
    ensures var x := Choose(r, j).value[0];
            && x < |r.usage| && x !in j.excluded
            && (|| ((r.usage[x] != 0.0 || r.pending[x] != 0.0) && r.usage[x] + r.pending[x] + j.usage <= 1.0
                    && NoneShared(r, j, x))
                || (r.usage[x] == 0.0 && NoneShared(r, j, |r.usage|)
                    && forall i :: 0 <= i < x ==> i in j.excluded || r.usage[i] != 0.0))
  {
    var x := Choose(r, j).value[0];
    forall i | 0 <= i < (if FirstShareable(r, j, 0).Some? then x else |r.usage|) && i !in j.excluded
               && (r.usage[i] != 0.0 || r.pending[i] != 0.0)
      ensures r.usage[i] + r.pending[i] + j.usage > 1.0
    {
      assert !Shareable(r, j, i);
    }
    forall i | FirstShareable(r, j, 0).None? && 0 <= i < x ensures i in j.excluded || r.usage[i] != 0.0 {
      assert !Free(r, j, i);
    }
  }

  /** None of the first `n` instances that the job may use carries fractional load and
      has room for it. */
  ghost predicate NoneShared(r: Row, j: Job, n: nat)
    requires n <= |r.usage| == |r.pending|
  {
    forall i :: 0 <= i < n && i !in j.excluded && (r.usage[i] != 0.0 || r.pending[i] != 0.0) ==>
      r.usage[i] + r.pending[i] + j.usage > 1.0
  }

  /** A whole-instance job gets as many distinct allowed free instances as it
      asks for, and one that a running job still claims only when no unclaimed
      one is left. */
  lemma WholeInstances(r: Row, j: Job)
    requires RowOk(r) && UsageOk(j.usage) && !j.running && j.usage >= 1.0
    ensures Choose(r, j).Some? <==>
              |set i: nat | i < |r.usage| && i !in j.excluded && r.usage[i] == 0.0| as real >= j.usage
    ensures Choose(r, j).Some? ==>
              var held := Choose(r, j).value;
              && |held| as real == j.usage && Distinct(held)
              && (forall k :: 0 <= k < |held| ==>
                    held[k] < |r.usage| && held[k] !in j.excluded && r.usage[held[k]] == 0.0)
              && ((exists k :: 0 <= k < |held| && r.pending[held[k]] != 0.0) ==>
                    forall i: nat :: i < |r.usage| && i !in j.excluded && r.usage[i] == 0.0 && r.pending[i] == 0.0 ==>
                      i in held)
  {
    FreeCountIs(r, j, |r.usage|);
    FreeSplit(r, j, |r.usage|);
    ChooseInRange(r, j);
    if Choose(r, j).Some? {
      var idle, c, held := FreeBelow(r, j, true, |r.usage|), Candidates(r, j), Choose(r, j).value;
      forall k | 0 <= k < |held| ensures held[k] < |r.usage| && Free(r, j, held[k]) {
        assert c[k] in idle || c[k] in FreeBelow(r, j, false, |r.usage|);
      }
      forall m | 0 <= m < |idle| ensures c[m] == idle[m] < |r.usage| && r.pending[c[m]] == 0.0 {
        assert idle[m] in idle;
      }
      if k :| 0 <= k < |held| && r.pending[held[k]] != 0.0 {
        forall i: nat | i < |r.usage| && Free(r, j, i) && r.pending[i] == 0.0 ensures i in held {
          FreeBelowHas(r, j, true, |r.usage|, i);
          var m :| 0 <= m < |idle| && idle[m] == i;
          assert held[m] == i;
        }
      }
    }
  }

  // ---- stability: re-assigning running jobs changes nothing -------------

  lemma {:induction false} LoadNonNegative(jobs: seq<Job>, sizes: seq<nat>, t: nat, i: nat)
    requires JobsOk(jobs, sizes)
    ensures Load(jobs, t, i) >= 0.0
    decreases |jobs|
  {
    if jobs != [] {
      assert JobOk(jobs[|jobs| - 1], sizes);
      LoadNonNegative(jobs[..|jobs| - 1], sizes, t, i);
    }
  }

  lemma {:induction false} LoadConcat(a: seq<Job>, b: seq<Job>, t: nat, i: nat)
    ensures Load(a + b, t, i) == Load(a, t, i) + Load(b, t, i)
    decreases |b|
  {
    if b == [] {
      assert a + b == a;
    } else {
      assert (a + b)[..|a + b| - 1] == a + b[..|b| - 1];
      LoadConcat(a, b[..|b| - 1], t, i);
    }
  }

  lemma LoadWithout(all: seq<Job>, k: nat, t: nat, i: nat)
    requires k < |all|
    ensures Load(all, t, i) == Load(all[..k] + all[k + 1..], t, i) + Load([all[k]], t, i)
  {
    hide *;
    assert all == all[..k] + ([all[k]] + all[k + 1..]);
    LoadConcat(all[..k], [all[k]] + all[k + 1..], t, i);
    LoadConcat([all[k]], all[k + 1..], t, i);
    LoadConcat(all[..k], all[k + 1..], t, i);
  }

  lemma MatchLast(sub: seq<Job>, all: seq<Job>) returns (k: nat)
    requires sub != [] && multiset(sub) <= multiset(all)
    ensures k < |all| && all[k] == sub[|sub| - 1]
    ensures multiset(sub[..|sub| - 1]) <= multiset(all[..k] + all[k + 1..])
  {
    var j, front := sub[|sub| - 1], sub[..|sub| - 1];
    assert sub == front + [j];
    assert j in multiset(sub) && j in multiset(all);
    k :| 0 <= k < |all| && all[k] == j;
    assert all == all[..k] + ([j] + all[k + 1..]);
    assert multiset(front) == multiset(sub) - multiset{j};
    assert multiset(all[..k] + all[k + 1..]) == multiset(all) - multiset{j};
  }

  /** Fewer jobs, in any order, put no more load on an instance. */
  lemma {:induction false} LoadOfSublist(sub: seq<Job>, all: seq<Job>, sizes: seq<nat>, t: nat, i: nat)
    requires JobsOk(all, sizes) && multiset(sub) <= multiset(all)
    ensures Load(sub, t, i) <= Load(all, t, i)
    decreases |sub|
  {
    if sub == [] {
      LoadNonNegative(all, sizes, t, i);
    } else {
      hide Load, JobOk;
      var n := |sub| - 1;
      var k := MatchLast(sub, all);
      LoadOfSublist(sub[..n], all[..k] + all[k + 1..], sizes, t, i);
      LoadWithout(all, k, t, i);
      LoadWithout(sub, n, t, i);
      assert sub[..n] + sub[n + 1..] == sub[..n];
    }
  }

  /** The same jobs once they have been started. */
  function Started(jobs: seq<Job>): (s: seq<Job>)
    ensures |s| == |jobs| && forall k :: 0 <= k < |s| ==> s[k] == jobs[k].(running := true)
  {
    seq(|jobs|, k requires 0 <= k < |jobs| => jobs[k].(running := true))
  }

  lemma {:induction false} LoadStarted(jobs: seq<Job>, t: nat, i: nat)
    ensures Load(Started(jobs), t, i) == Load(jobs, t, i)
    decreases |jobs|
  {
    if jobs != [] {
      assert Started(jobs)[..|jobs| - 1] == Started(jobs[..|jobs| - 1]);
      LoadStarted(jobs[..|jobs| - 1], t, i);
    }
  }

  lemma LoadOfPrefix(jobs: seq<Job>, n: nat, sizes: seq<nat>, t: nat, i: nat)
    requires n <= |jobs| && JobsOk(jobs, sizes)
    ensures Load(jobs[..n], t, i) <= Load(jobs, t, i)
  {
    assert jobs == jobs[..n] + jobs[n..];
    LoadOfSublist(jobs[..n], jobs, sizes, t, i);
  }

  ghost predicate AllFit(sizes: seq<nat>, jobs: seq<Job>) {
    forall t: nat, i: nat :: t < |sizes| && i < sizes[t] ==> Load(jobs, t, i) <= 1.0
  }

  lemma FittingJobStays(sizes: seq<nat>, jobs: seq<Job>, n: nat, o: Outcome)
    requires n < |jobs| && JobsOk(jobs, sizes) && OutcomeOk(o, sizes) && JobOk(jobs[n], sizes) && jobs[n].running
    requires Halfway(sizes, jobs, n, o) && o.kept == jobs[..n] && o.pruned == [] && AllFit(sizes, jobs)
    ensures Step(o, sizes, jobs[n]).kept == jobs[..n + 1] && Step(o, sizes, jobs[n]).pruned == []
  {
    var j := jobs[n];
    assert jobs[..n + 1] == jobs[..n] + [j];
    if j.rt != 0 {
      forall k | 0 <= k < |j.held| ensures o.rows[j.rt].usage[j.held[k]] + Share(j.usage) <= 1.0 {
        LoadStep(jobs[..n], j, j.rt, j.held[k]);
        LoadOfPrefix(jobs, n + 1, sizes, j.rt, j.held[k]);
      }
      assert !Conflict(o.rows[j.rt], j);
    }
  }

  ghost predicate AllStay(init: seq<Row>, sizes: seq<nat>, jobs: seq<Job>, n: nat)
    requires JobsOk(jobs, sizes) && n <= |jobs| && RowsOk(init, sizes)
  {
    var o := AssignFrom(init, sizes, jobs[..n]);
    o.kept == jobs[..n] && o.pruned == []
  }

  lemma NextStays(sizes: seq<nat>, jobs: seq<Job>, n: nat)
    requires JobsOk(jobs, sizes) && n < |jobs| && AllFit(sizes, jobs) && jobs[n].running
    requires RowsOk(Initial(sizes, jobs), sizes) && AllStay(Initial(sizes, jobs), sizes, jobs, n)
    ensures AllStay(Initial(sizes, jobs), sizes, jobs, n + 1)
  {
    AssignUnfold(Initial(sizes, jobs), sizes, jobs, n);
    AssignHalfway(sizes, jobs, n);
    FittingJobStays(sizes, jobs, n, AssignFrom(Initial(sizes, jobs), sizes, jobs[..n]));
  }

  /** Running jobs that fit together are all kept where they are. */
  lemma {:induction false} FittingJobsStay(sizes: seq<nat>, jobs: seq<Job>, n: nat)
    requires JobsOk(jobs, sizes) && n <= |jobs| && AllFit(sizes, jobs)
    requires forall k :: 0 <= k < |jobs| ==> jobs[k].running
    ensures RowsOk(Initial(sizes, jobs), sizes) && AllStay(Initial(sizes, jobs), sizes, jobs, n)
  {
    InitialHalfway(sizes, jobs);
    if n > 0 {
      FittingJobsStay(sizes, jobs, n - 1);
      NextStays(sizes, jobs, n - 1);
    }
  }

  /** Once started, the kept jobs of a pass fit together. */
  lemma GrantFits(sizes: seq<nat>, jobs: seq<Job>)
    requires JobsOk(jobs, sizes)
    ensures JobsOk(Started(Assign(sizes, jobs).kept), sizes) && AllFit(sizes, Started(Assign(sizes, jobs).kept))
  {
    forall t: nat, i: nat | t < |sizes| && i < sizes[t] ensures Load(Started(Assign(sizes, jobs).kept), t, i) <= 1.0 {
      NoInstanceOverused(sizes, jobs, t, i);
      LoadStarted(Assign(sizes, jobs).kept, t, i);
    }
  }

  /** Once the kept jobs are running, assigning any sublist of them again, in
      any order, prunes none and moves none. */
  lemma AssignmentIsStable(sizes: seq<nat>, jobs: seq<Job>, again: seq<Job>)
    requires JobsOk(jobs, sizes)
    requires multiset(again) <= multiset(Started(Assign(sizes, jobs).kept))
    ensures JobsOk(again, sizes)
    ensures Assign(sizes, again).kept == again && Assign(sizes, again).pruned == []
  {
    var started := Started(Assign(sizes, jobs).kept);
    GrantFits(sizes, jobs);
    forall k | 0 <= k < |again| ensures JobOk(again[k], sizes) && again[k].running {
      assert again[k] in multiset(again);
      assert again[k] in multiset(started);
    }
    forall t: nat, i: nat | t < |sizes| && i < sizes[t] ensures Load(again, t, i) <= 1.0 {
      LoadOfSublist(again, started, sizes, t, i);
    }
    FittingJobsStay(sizes, again, |again|);
    assert again[..|again|] == again;
  }
}
