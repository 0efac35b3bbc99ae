/** When the GPU assignment turns a running job away, which choosing unclaimed
    instances first is meant to avoid (client/cpu_sched.cpp:1066-1067). */
module Displacement {
  import opened Lists
  import opened Wrappers
  import opened GpuAssignment

  // ---- one choice -------------------------------------------------------

  /** The guard of the branches that take an instance which a running job may
      still claim: for a fractional job, no shared instance has room and the first
      free one is claimed (client/cpu_sched.cpp:1175-1190); for a whole job, the
      unclaimed free instances are too few (client/cpu_sched.cpp:1262-1290). */
  ghost predicate Claims(r: Row, j: Job)
    requires |r.usage| == |r.pending| && 0.0 < j.usage
  {
    && !j.running
    && if j.usage < 1.0 then
         FirstShareable(r, j, 0).None? && FirstFree(r, j, 0).Some? && r.pending[FirstFree(r, j, 0).value] != 0.0
       else
         |FreeBelow(r, j, true, |r.usage|)| < Count(j.usage) <= FreeCount(r, j, |r.usage|)
  }

  /** The job is put on an instance without room for it and the running jobs there. */
  ghost predicate Overcommits(r: Row, j: Job)
    requires RowOk(r) && UsageOk(j.usage) && (j.running ==> HoldsIn(j.held, j.usage, |r.usage|))
  {
    ChooseInRange(r, j);
    Choose(r, j).Some? &&
    exists k :: 0 <= k < |Choose(r, j).value| &&
      r.usage[Choose(r, j).value[k]] + r.pending[Choose(r, j).value[k]] + Share(j.usage) > 1.0
  }

  lemma FractionalOvercommitsIff(r: Row, j: Job)
    requires RowOk(r) && UsageOk(j.usage) && !j.running && j.usage < 1.0
    ensures Overcommits(r, j) <==> Claims(r, j)
  {
    if FirstShareable(r, j, 0).None? && FirstFree(r, j, 0).Some? {
      var i := FirstFree(r, j, 0).value;
      assert Choose(r, j).value[0] == i;
      assert !Shareable(r, j, i) && Free(r, j, i);
    }
  }

  lemma WholeOvercommitsIff(r: Row, j: Job)
    requires RowOk(r) && UsageOk(j.usage) && !j.running && j.usage >= 1.0
    requires forall i :: 0 <= i < |r.pending| ==> r.pending[i] >= 0.0
    ensures Overcommits(r, j) <==> Claims(r, j)
  {
    FreeSplit(r, j, |r.usage|);
    var idle, claimed := FreeBelow(r, j, true, |r.usage|), FreeBelow(r, j, false, |r.usage|);
    var c, n := Candidates(r, j), Count(j.usage);
    if Choose(r, j).Some? {
      assert forall k :: 0 <= k < n ==> Choose(r, j).value[k] == c[k] && Free(r, j, c[k]);
      if n <= |idle| {
        assert forall k :: 0 <= k < n ==> c[k] == idle[k];
      } else {
        assert c[|idle|] == claimed[0];
      }
    }
  }

  /** A job that is not running is put where it and the running jobs do not fit
      together exactly on that guard. */
  lemma OvercommitsIff(r: Row, j: Job)
    requires RowOk(r) && UsageOk(j.usage) && !j.running
    requires forall i :: 0 <= i < |r.pending| ==> r.pending[i] >= 0.0
    ensures Overcommits(r, j) <==> Claims(r, j)
  {
    if j.usage < 1.0 {
      FractionalOvercommitsIff(r, j);
    } else {
      WholeOvercommitsIff(r, j);
    }
  }

  // ---- the whole pass ---------------------------------------------------

  /** Where the pass is after the first `n` jobs. */
  ghost function At(sizes: seq<nat>, jobs: seq<Job>, n: nat): (o: Outcome)
    requires JobsOk(jobs, sizes) && n <= |jobs|
    ensures OutcomeOk(o, sizes)
  {
    AssignFrom(Initial(sizes, jobs), sizes, jobs[..n])
  }

  ghost predicate ClaimsAt(sizes: seq<nat>, jobs: seq<Job>, n: nat)
    requires JobsOk(jobs, sizes)
  {
    n < |jobs| && jobs[n].rt != 0 && Claims(At(sizes, jobs, n).rows[jobs[n].rt], jobs[n])
  }

  ghost predicate RunningPruned(o: Outcome) {
    exists k :: 0 <= k < |o.pruned| && o.pruned[k].running
  }

  /** The running jobs fit together where they are. */
  ghost predicate RunningFit(sizes: seq<nat>, jobs: seq<Job>) {
    forall t: nat, i: nat :: t < |sizes| && i < sizes[t] ==> RunningLoad(jobs, t, i) <= 1.0
  }

  /** Every instance has room for the running jobs that have not been looked at. */
  ghost predicate Roomy(o: Outcome, sizes: seq<nat>)
    requires OutcomeOk(o, sizes)
  {
    forall t: nat, i: nat :: t < |sizes| && i < sizes[t] ==> o.rows[t].usage[i] + o.rows[t].pending[i] <= 1.0
  }

  lemma AtNext(sizes: seq<nat>, jobs: seq<Job>, n: nat)
    requires JobsOk(jobs, sizes) && n < |jobs|
    ensures JobOk(jobs[n], sizes) && At(sizes, jobs, n + 1) == Step(At(sizes, jobs, n), sizes, jobs[n])
  {
    AssignUnfold(Initial(sizes, jobs), sizes, jobs, n);
  }

  lemma HalfwayAt(sizes: seq<nat>, jobs: seq<Job>, n: nat, t: nat, i: nat)
    requires JobsOk(jobs, sizes) && n <= |jobs| && t < |sizes| && i < sizes[t]
    ensures var r := At(sizes, jobs, n).rows[t];
            && 0.0 <= r.usage[i] <= 1.0 && 0.0 <= r.pending[i]
            && r.pending[i] >= RunningLoad(jobs, t, i) - RunningLoad(jobs[..n], t, i)
  {
    AssignHalfway(sizes, jobs, n);
    RunningLoadGrows(jobs, n, sizes, t, i);
  }

  lemma OvercommitsAtIff(sizes: seq<nat>, jobs: seq<Job>, n: nat)
    requires JobsOk(jobs, sizes) && n < |jobs| && JobOk(jobs[n], sizes) && jobs[n].rt != 0 && !jobs[n].running
    ensures Overcommits(At(sizes, jobs, n).rows[jobs[n].rt], jobs[n]) <==> ClaimsAt(sizes, jobs, n)
  {
    var t := jobs[n].rt;
    forall i: nat | i < sizes[t] ensures At(sizes, jobs, n).rows[t].pending[i] >= 0.0 {
      HalfwayAt(sizes, jobs, n, t, i);
    }
    OvercommitsIff(At(sizes, jobs, n).rows[t], jobs[n]);
  }

  // No claim: no running job is turned away.

  lemma {:induction false} RunningLoadOf(jobs: seq<Job>, n: nat, sizes: seq<nat>, t: nat, i: nat)
    requires n < |jobs| && JobsOk(jobs, sizes) && jobs[n].running
    ensures RunningLoad(jobs, t, i) - RunningLoad(jobs[..n], t, i) >= On(jobs[n], t, i)
  {
    assert jobs[..n + 1][..n] == jobs[..n];
    RunningLoadGrows(jobs, n + 1, sizes, t, i);
  }

  lemma RunningStays(sizes: seq<nat>, jobs: seq<Job>, n: nat)
    requires JobsOk(jobs, sizes) && n < |jobs| && jobs[n].running && jobs[n].rt != 0
    requires JobOk(jobs[n], sizes) && Roomy(At(sizes, jobs, n), sizes)
    ensures Choose(At(sizes, jobs, n).rows[jobs[n].rt], jobs[n]).Some?
  {
    var j, r := jobs[n], At(sizes, jobs, n).rows[jobs[n].rt];
    forall k | 0 <= k < |j.held| ensures r.usage[j.held[k]] + Share(j.usage) <= 1.0 {
      HalfwayAt(sizes, jobs, n, j.rt, j.held[k]);
      RunningLoadOf(jobs, n, sizes, j.rt, j.held[k]);
    }
  }

  lemma RoomyNext(sizes: seq<nat>, jobs: seq<Job>, n: nat)
    requires JobsOk(jobs, sizes) && n < |jobs| && Roomy(At(sizes, jobs, n), sizes) && !ClaimsAt(sizes, jobs, n)
    ensures Roomy(At(sizes, jobs, n + 1), sizes)
    ensures RunningPruned(At(sizes, jobs, n + 1)) ==> RunningPruned(At(sizes, jobs, n))
  {
    AtNext(sizes, jobs, n);
    var j, o := jobs[n], At(sizes, jobs, n);
    if j.rt != 0 {
      if j.running {
        RunningStays(sizes, jobs, n);
      } else {
        OvercommitsAtIff(sizes, jobs, n);
      }
      ChooseInRange(o.rows[j.rt], j);
    }
  }

  lemma {:induction false} NothingDisplaced(sizes: seq<nat>, jobs: seq<Job>, n: nat)
    requires JobsOk(jobs, sizes) && n <= |jobs| && RunningFit(sizes, jobs)
    requires forall m: nat :: m < n ==> !ClaimsAt(sizes, jobs, m)
    ensures Roomy(At(sizes, jobs, n), sizes) && !RunningPruned(At(sizes, jobs, n))
  {
    if n > 0 {
      NothingDisplaced(sizes, jobs, n - 1);
      RoomyNext(sizes, jobs, n - 1);
    }
  }

  // A claim: some running job is turned away.

  lemma PrunedGrow(sizes: seq<nat>, jobs: seq<Job>, n: nat)
    requires JobsOk(jobs, sizes) && n < |jobs| && !RunningPruned(At(sizes, jobs, n + 1))
    ensures !RunningPruned(At(sizes, jobs, n))
    ensures jobs[n].running && jobs[n].rt != 0 ==>
              JobOk(jobs[n], sizes) && Choose(At(sizes, jobs, n).rows[jobs[n].rt], jobs[n]).Some?
  {
    AtNext(sizes, jobs, n);
    var o, o' := At(sizes, jobs, n), At(sizes, jobs, n + 1);
    assert forall k :: 0 <= k < |o.pruned| ==> o'.pruned[k] == o.pruned[k];
    if o'.pruned != o.pruned {
      assert o'.pruned[|o.pruned|] == jobs[n];
    }
  }

  /** As long as no running job has been turned away, the pending usage is what
      those not looked at hold. */
  lemma {:induction false} PendingIsExact(sizes: seq<nat>, jobs: seq<Job>, n: nat, t: nat, i: nat)
    requires JobsOk(jobs, sizes) && n <= |jobs| && t < |sizes| && i < sizes[t] && !RunningPruned(At(sizes, jobs, n))
    ensures At(sizes, jobs, n).rows[t].pending[i] == RunningLoad(jobs, t, i) - RunningLoad(jobs[..n], t, i)
  {
    hide RunningPruned, Halfway, Choose;
    if n > 0 {
      var j := jobs[n - 1];
      PrunedGrow(sizes, jobs, n - 1);
      PendingIsExact(sizes, jobs, n - 1, t, i);
      AtNext(sizes, jobs, n - 1);
      HalfwayAt(sizes, jobs, n - 1, t, i);
      assert jobs[..n][..n - 1] == jobs[..n - 1];
      if j.rt == t != 0 && Choose(At(sizes, jobs, n - 1).rows[t], j).Some? {
        ChargeIsSafe(At(sizes, jobs, n - 1).rows[t], j, i);
      }
    }
  }

  lemma RoomyAtEnd(sizes: seq<nat>, jobs: seq<Job>)
    requires JobsOk(jobs, sizes) && !RunningPruned(At(sizes, jobs, |jobs|))
    ensures Roomy(At(sizes, jobs, |jobs|), sizes)
  {
    forall t: nat, i: nat | t < |sizes| && i < sizes[t]
      ensures At(sizes, jobs, |jobs|).rows[t].usage[i] + At(sizes, jobs, |jobs|).rows[t].pending[i] <= 1.0
    {
      PendingIsExact(sizes, jobs, |jobs|, t, i);
      HalfwayAt(sizes, jobs, |jobs|, t, i);
      assert jobs[..|jobs|] == jobs;
    }
  }

  lemma RoomyBefore(sizes: seq<nat>, jobs: seq<Job>, n: nat)
    requires JobsOk(jobs, sizes) && n < |jobs| && Roomy(At(sizes, jobs, n + 1), sizes)
    ensures Roomy(At(sizes, jobs, n), sizes) && !ClaimsAt(sizes, jobs, n)
  {
    AtNext(sizes, jobs, n);
    var j, o := jobs[n], At(sizes, jobs, n);
    forall t: nat, i: nat | t < |sizes| && i < sizes[t] ensures o.rows[t].usage[i] + o.rows[t].pending[i] <= 1.0 {
      StepFuller(o, sizes, j, t);
    }
    if j.rt != 0 && !j.running {
      OvercommitsAtIff(sizes, jobs, n);
      ChooseInRange(o.rows[j.rt], j);
      if Choose(o.rows[j.rt], j).Some? {
        var r, held := o.rows[j.rt], Choose(o.rows[j.rt], j).value;
        forall k | 0 <= k < |held| ensures r.usage[held[k]] + r.pending[held[k]] + Share(j.usage) <= 1.0 {
          assert held[k] in held;
          assert At(sizes, jobs, n + 1).rows[j.rt] == Charge(r, j, held);
        }
      }
    }
  }

  lemma RoomyAtStart(sizes: seq<nat>, jobs: seq<Job>)
    requires JobsOk(jobs, sizes) && Roomy(At(sizes, jobs, 0), sizes)
    ensures RunningFit(sizes, jobs)
  {
    forall t: nat, i: nat | t < |sizes| && i < sizes[t] ensures RunningLoad(jobs, t, i) <= 1.0 {
      assert At(sizes, jobs, 0).rows[t].pending[i] == RunningLoad(jobs, t, i);
    }
  }

  lemma {:induction false} RoomyThroughout(sizes: seq<nat>, jobs: seq<Job>, n: nat)
    requires JobsOk(jobs, sizes) && n <= |jobs| && Roomy(At(sizes, jobs, n), sizes)
    ensures RunningFit(sizes, jobs) && forall m: nat :: m < n ==> !ClaimsAt(sizes, jobs, m)
  {
    hide Roomy, RunningFit, ClaimsAt, At;
    if n > 0 {
      RoomyBefore(sizes, jobs, n - 1);
      RoomyThroughout(sizes, jobs, n - 1);
    } else {
      RoomyAtStart(sizes, jobs);
    }
  }

  /** The pass turns a running job away exactly if the running jobs do not fit
      together to begin with, or some new job takes an instance on the guard. */
  lemma RunningPrunedIff(sizes: seq<nat>, jobs: seq<Job>)
    requires JobsOk(jobs, sizes)
    ensures RunningPruned(Assign(sizes, jobs)) <==>
            !RunningFit(sizes, jobs) || exists n: nat :: ClaimsAt(sizes, jobs, n)
  {
    assert jobs[..|jobs|] == jobs;
    if RunningPruned(Assign(sizes, jobs)) {
      if RunningFit(sizes, jobs) && forall n: nat :: !ClaimsAt(sizes, jobs, n) {
        NothingDisplaced(sizes, jobs, |jobs|);
      }
    } else {
      RoomyAtEnd(sizes, jobs);
      RoomyThroughout(sizes, jobs, |jobs|);
    }
  }

  lemma ClaimedIsTaken(a: Job)
    requires 0.0 < a.usage <= 1.0 && !a.running && a.excluded == {}
    ensures Choose(Row([0.0], [1.0]), a) == Some([0])
  {
    var r := Row([0.0], [1.0]);
    assert Free(r, a, 0) && FirstFree(r, a, 0) == Some(0);
    if a.usage < 1.0 {
      assert !Shareable(r, a, 0) && FirstShareable(r, a, 0).None?;
      assert Choose(r, a).value == [0];
    } else {
      assert FreeBelow(r, a, true, 0) == [] && FreeBelow(r, a, false, 0) == [];
      assert FreeBelow(r, a, true, 1) == [] && FreeBelow(r, a, false, 1) == [0];
      assert Candidates(r, a) == [0] && a.usage == 1.0 && Count(1.0) == 1;
      assert Candidates(r, a)[..1] == [0];
      assert Choose(r, a).Some?;
      assert Choose(r, a).value == [0];
    }
  }

  lemma OneClaimed(a: Job, b: Job)
    requires !a.running && b.running && b.rt == 1 && b.held == [0] && b.usage == 1.0
    ensures Initial([0, 1], [a, b])[1] == Row([0.0], [1.0])
  {
    assert [a, b][..1] == [a] && [a][..0] == [] && b.held[0] == 0;
    assert RunningLoad([a], 1, 0) == RunningLoad([], 1, 0) + 0.0;
    assert RunningLoad([a, b], 1, 0) == 1.0;
  }

  /** A new job that asks for all or part of the only instance takes it from the
      running job that holds it. */
  lemma RunningJobIsDisplaced(usage: real)
    requires 0.0 < usage <= 1.0
    ensures var a, b := Job(0, 1, usage, {}, false, []), Job(1, 1, 1.0, {}, true, [0]);
            JobsOk([a, b], [0, 1]) && Assign([0, 1], [a, b]).pruned == [b]
  {
    var sizes, a, b := [0, 1], Job(0, 1, usage, {}, false, []), Job(1, 1, 1.0, {}, true, [0]);
    var jobs, r := [a, b], Row([0.0], [1.0]);
    assert JobOk(a, sizes) && JobOk(b, sizes) && JobsOk(jobs, sizes) && JobsOk([a], sizes);
    OneClaimed(a, b);
    ClaimedIsTaken(a);
    var rows := Initial(sizes, jobs);
    assert jobs[..1] == [a] && [a][..0] == [];
    var first := Step(Outcome(rows, [], []), sizes, a);
    assert AssignFrom(rows, sizes, [a]) == first;
    assert 0 in [0] && first.rows[1].usage[0] == usage && first.pruned == [];
    assert b.held[0] == 0 && Conflict(first.rows[1], b) && Choose(first.rows[1], b).None?;
  }
}
