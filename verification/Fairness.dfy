/** Proportional fairness of the choice by project priority
    (client/cpu_sched.cpp:367-388, 635-657, 908-916), on values: the picks of
    the loop, and the work they charge to projects. */
module Fairness {
  import opened ClientTypes

  /** What projects have had before, and what listing a job adds to the work of
      its project. */
  datatype Charges = Charges(rec: Project -> NonNegReal, inc: Result -> NonNegReal)

  /** What the jobs of a list add to the work of a project. */
  ghost function ListCharge(list: seq<Result>, p: Project, w: Charges): real {
    if list == [] then 0.0
    else ListCharge(list[..|list| - 1], p, w) + if list[|list| - 1].project == p then w.inc(list[|list| - 1]) else 0.0
  }

  /** The work of a project once the jobs of a list have been charged. */
  ghost function WorkOf(list: seq<Result>, p: Project, w: Charges): real {
    w.rec(p) + ListCharge(list, p, w)
  }

  lemma WorkNext(list: seq<Result>, rp: Result, p: Project, w: Charges)
    ensures WorkOf(list + [rp], p, w) == WorkOf(list, p, w) + if rp.project == p then w.inc(rp) else 0.0
  {
    assert (list + [rp])[..|list|] == list;
  }

  /** Why a job is looked at: it is first by deadline or by arrival among those of a
      resource type, or the candidate of the first of the projects that have one. */
  datatype How = Deadline(rt: nat) | Arrival(rt: nat) | ByPriority(rivals: set<Project>)

  /** A pick of a selection loop: the job, whether it was listed, and why it was
      looked at. */
  datatype Pick = Pick(job: Result, listed: bool, how: How) {
    /** The projects that had a candidate then. */
    function Rivals(): set<Project> {
      if how.ByPriority? then how.rivals else {}
    }
  }

  /** The jobs that the picks listed, in order. */
  function ListedOf(log: seq<Pick>): seq<Result> {
    if log == [] then []
    else ListedOf(log[..|log| - 1]) + if log[|log| - 1].listed then [log[|log| - 1].job] else []
  }

  function Added(pick: Pick, w: Charges): real {
    if pick.listed then w.inc(pick.job) else 0.0
  }

  /** For its share, one project has had no more than another, but for `inc`. */
  predicate NotAhead(a: real, sa: real, b: real, sb: real, inc: real) {
    sa > 0.0 && sb > 0.0 ==> a / sa <= b / sb + inc / sa
  }

  /** For its share, `p` has no more work than `q`, but for `inc`. */
  ghost predicate FairTo(list: seq<Result>, p: Project, q: Project, inc: real, w: Charges) {
    NotAhead(WorkOf(list, p, w), p.resourceShare, WorkOf(list, q, w), q.resourceShare, inc)
  }

  /** The pick was of a CPU job of the project that, for its share, had least work
      of all that had a candidate; `list` is the list before it. */
  ghost predicate OfLeastServed(list: seq<Result>, pick: Pick, w: Charges) {
    && !pick.job.UsesCoprocs() && pick.job.project in pick.Rivals()
    && forall q :: q in pick.Rivals() ==> FairTo(list, pick.job.project, q, 0.0, w)
  }

  /** Each pick was of the least served project, after the jobs listed before it. */
  ghost predicate LogOk(jobs: seq<Result>, log: seq<Pick>, w: Charges) {
    forall k :: 0 <= k < |log| ==> OfLeastServed(jobs + ListedOf(log[..k]), log[k], w)
  }

  lemma {:induction false} ChargeIsPositive(list: seq<Result>, p: Project, w: Charges)
    ensures ListCharge(list, p, w) >= 0.0
  {
    if list != [] {
      ChargeIsPositive(list[..|list| - 1], p, w);
    }
  }

  lemma {:induction false} ChargeConcat(a: seq<Result>, b: seq<Result>, p: Project, w: Charges)
    ensures ListCharge(a + b, p, w) == ListCharge(a, p, w) + ListCharge(b, p, w)
    decreases |b|
  {
    if b == [] {
      assert a + b == a;
    } else {
      assert (a + b)[..|a + b| - 1] == a + b[..|b| - 1];
      ChargeConcat(a, b[..|b| - 1], p, w);
    }
  }

  lemma {:induction false} NoCharge(list: seq<Result>, p: Project, w: Charges)
    requires forall k :: 0 <= k < |list| ==> list[k].project != p
    ensures ListCharge(list, p, w) == 0.0
  {
    if list != [] {
      NoCharge(list[..|list| - 1], p, w);
    }
  }

  lemma DivisionIsLinear(x: real, y: real, d: real)
    requires d > 0.0
    ensures (x + y) / d == x / d + y / d
    ensures x <= y ==> x / d <= y / d
  {
    assert ((x + y) / d) * d == x + y == (x / d) * d + (y / d) * d == (x / d + y / d) * d;
  }

  lemma Shares(a: real, inc: real, sa: real, b: real, more: real, sb: real)
    requires more >= 0.0 && NotAhead(a, sa, b, sb, 0.0)
    ensures NotAhead(a + inc, sa, b + more, sb, inc)
  {
    if sa > 0.0 && sb > 0.0 {
      DivisionIsLinear(a, inc, sa);
      DivisionIsLinear(b, b + more, sb);
      assert 0.0 / sa == 0.0;
    }
  }

  /** More jobs, `more`, after a pick of the least served project: the comparison
      is off by what they add to that project. */
  lemma StillFair(list: seq<Result>, more: seq<Result>, whole: seq<Result>, p: Project, q: Project, inc: real,
                  w: Charges)
    requires FairTo(list, p, q, 0.0, w) && whole == list + more && inc == ListCharge(more, p, w)
    ensures FairTo(whole, p, q, inc, w)
  {
    ChargeConcat(list, more, p, w);
    ChargeConcat(list, more, q, w);
    ChargeIsPositive(more, q, w);
    assert WorkOf(list + more, p, w) == WorkOf(list, p, w) + ListCharge(more, p, w);
    assert WorkOf(list + more, q, w) == WorkOf(list, q, w) + ListCharge(more, q, w);
    Shares(WorkOf(list, p, w), ListCharge(more, p, w), p.resourceShare,
           WorkOf(list, q, w), ListCharge(more, q, w), q.resourceShare);
  }

  lemma {:induction false} ListedConcat(a: seq<Pick>, b: seq<Pick>)
    ensures ListedOf(a + b) == ListedOf(a) + ListedOf(b)
    decreases |b|
  {
    if b == [] {
      assert a + b == a;
    } else {
      assert (a + b)[..|a + b| - 1] == a + b[..|b| - 1];
      ListedConcat(a, b[..|b| - 1]);
    }
  }

  lemma ListedSplit(log: seq<Pick>, k: nat)
    requires k <= |log|
    ensures ListedOf(log) == ListedOf(log[..k]) + ListedOf(log[k..])
  {
    assert log == log[..k] + log[k..];
    ListedConcat(log[..k], log[k..]);
  }

  lemma Regroup(a: seq<Result>, b: seq<Result>, c: seq<Result>)
    ensures a + (b + c) == a + b + c
  {
  }

  lemma {:induction false} ListedAreOf(log: seq<Pick>, p: Project)
    requires forall k :: 0 <= k < |log| && log[k].listed ==> log[k].job.project != p
    ensures forall k :: 0 <= k < |ListedOf(log)| ==> ListedOf(log)[k].project != p
  {
    if log != [] {
      ListedAreOf(log[..|log| - 1], p);
    }
  }

  lemma ChargeOfLatest(log: seq<Pick>, k: nat, w: Charges)
    requires k < |log| && forall m :: k < m < |log| && log[m].listed ==> log[m].job.project != log[k].job.project
    ensures ListCharge(ListedOf(log[k..]), log[k].job.project, w) == Added(log[k], w)
  {
    var p, later := log[k].job.project, log[k + 1..];
    assert log[k..] == [log[k]] + later;
    ListedConcat([log[k]], later);
    ListedAreOf(later, p);
    NoCharge(ListedOf(later), p, w);
    ChargeConcat(ListedOf([log[k]]), ListedOf(later), p, w);
    OneListed(log[k], w);
  }

  /** For its share, a project has no more work than any that had a candidate at a
      pick of its own, but for what that pick added, if none later was listed. */
  lemma LatestPickIsFair(jobs: seq<Result>, log: seq<Pick>, k: nat, q: Project, w: Charges)
    requires LogOk(jobs, log, w) && k < |log| && q in log[k].Rivals()
    requires forall m :: k < m < |log| && log[m].listed ==> log[m].job.project != log[k].job.project
    ensures FairTo(jobs + ListedOf(log), log[k].job.project, q, Added(log[k], w), w)
  {
    var before, more := jobs + ListedOf(log[..k]), ListedOf(log[k..]);
    ListedSplit(log, k);
    Regroup(jobs, ListedOf(log[..k]), more);
    ChargeOfLatest(log, k, w);
    assert OfLeastServed(before, log[k], w);
    StillFair(before, more, jobs + ListedOf(log), log[k].job.project, q, Added(log[k], w), w);
  }

  lemma OneListed(pick: Pick, w: Charges)
    ensures ListCharge(ListedOf([pick]), pick.job.project, w) == Added(pick, w)
  {
    assert [pick][..0] == [];
    assert pick.listed ==> ListedOf([pick]) == [pick.job] && [pick.job][..0] == [];
  }
}
