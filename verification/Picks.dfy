/** What the selection loops of `make_run_list` amount to, on values: which job each
    turn looks at, whether it is listed, and when a loop ends
    (client/cpu_sched.cpp:779-816, 867-917). */
module Picks {
  import opened Lists
  import opened ClientTypes
  import opened Client
  import opened Scheduler
  import opened Selection
  import opened Candidates
  import opened Budget
  import opened Fairness
  import opened Priorities

  ghost function JobsOf(picks: seq<Pick>): set<Result> {
    set k | 0 <= k < |picks| :: picks[k].job
  }

  lemma JobsNext(picks: seq<Pick>, pick: Pick)
    ensures JobsOf(picks + [pick]) == JobsOf(picks) + {pick.job}
  {
    var next := picks + [pick];
    assert next[|picks|] == pick;
    forall r | r in JobsOf(picks) ensures r in JobsOf(next) {
      var k :| 0 <= k < |picks| && picks[k].job == r;
      assert next[k].job == r;
    }
  }

  // ---- which job comes next ---------------------------------------------

  /** How many deadline misses of the project the picks have dealt with. */
  function Dealt(picks: seq<Pick>, p: Project, rt: nat): nat {
    if picks == [] then 0
    else
      var pick := picks[|picks| - 1];
      Dealt(picks[..|picks| - 1], p, rt)
        + if pick.listed && pick.how == Deadline(rt) && pick.job.project == p then 1 else 0
  }

  lemma DealtNext(picks: seq<Pick>, pick: Pick, p: Project, rt: nat)
    ensures Dealt(picks + [pick], p, rt) ==
            Dealt(picks, p, rt) + if pick.listed && pick.how == Deadline(rt) && pick.job.project == p then 1 else 0
  {
    assert (picks + [pick])[..|picks|] == picks;
  }

  /** A job that a loop for the resource type may still look at. */
  ghost predicate Eligible(r: Result, rt: nat, env: Env, picks: seq<Pick>) {
    r.rscType == rt && r !in JobsOf(picks) && r in env.runnable && !r.nonCpuIntensive
  }

  ghost predicate WouldMiss(p: Project, rt: nat, f: Forecast, picks: seq<Pick>) {
    f.extremeDcf(p) || f.deadlinesMissed(p)(rt) - Dealt(picks, p, rt) > 0
  }

  /** By deadline, then started jobs, then by remaining time. */
  ghost function DeadlineEntry(c: ClientState, r: Result, rt: nat, env: Env, f: Forecast, picks: seq<Pick>): Entry
    reads c`tasks
  {
    if Eligible(r, rt, env, picks) && WouldMiss(r.project, rt, f, picks)
    then In(Rank(f.deadline(r), !HasTask(c.tasks, r), f.remaining(r)))
    else Out
  }

  /** By project priority, then started jobs, then by arrival. */
  ghost function ArrivalEntry(c: ClientState, r: Result, rt: nat, env: Env, f: Forecast, s: Sums,
                              picks: seq<Pick>): Entry
    reads c`tasks
  {
    if Eligible(r, rt, env, picks)
    then In(Rank(-PriorityAfter(ListedOf(picks), r.project, f, s), !HasTask(c.tasks, r)
      && !f.computingDone(r), f.index(r) as real))
    else Out
  }

  ghost function JobEntry(c: ClientState, r: Result, how: How, env: Env, f: Forecast, s: Sums, picks: seq<Pick>): Entry
    reads c`tasks
  {
    match how
    case Deadline(rt) => DeadlineEntry(c, r, rt, env, f, picks)
    case Arrival(rt) => ArrivalEntry(c, r, rt, env, f, s, picks)
    case ByPriority(_) => Out
  }

  ghost function JobEntries(c: ClientState, how: How, env: Env, f: Forecast, s: Sums,
                            picks: seq<Pick>): (entries: seq<Entry>)
    reads c
    ensures |entries| == |c.results|
    ensures forall k :: 0 <= k < |entries| ==> entries[k] == JobEntry(c, c.results[k], how, env, f, s, picks)
  {
    seq(|c.results|, k requires 0 <= k < |c.results| reads c => JobEntry(c, c.results[k], how, env, f, s, picks))
  }

  ghost function RivalEntries(c: ClientState, rivals: set<Project>, f: Forecast, s: Sums,
                              list: seq<Result>): (entries: seq<Entry>)
    reads c
    ensures |entries| == |c.projects|
    ensures forall k :: 0 <= k < |entries| ==>
              entries[k] ==
              if c.projects[k] in rivals then In(Rank(-PriorityAfter(list, c.projects[k], f, s), false, 0.0)) else Out
  {
    seq(|c.projects|, k requires 0 <= k < |c.projects| reads c =>
      if c.projects[k] in rivals then In(Rank(-PriorityAfter(list, c.projects[k], f, s), false, 0.0)) else Out)
  }

  ghost predicate IsFirst<T>(xs: seq<T>, entries: seq<Entry>, x: T) {
    |entries| == |xs| && exists at: nat :: at < |xs| && xs[at] == x && FirstBest(entries, |xs|, at)
  }

  lemma FirstIsUnique<T>(xs: seq<T>, entries: seq<Entry>, x: T, y: T)
    requires IsFirst(xs, entries, x) && IsFirst(xs, entries, y)
    ensures x == y
  {
    var i: nat :| i < |xs| && xs[i] == x && FirstBest(entries, |xs|, i);
    var j: nat :| j < |xs| && xs[j] == y && FirstBest(entries, |xs|, j);
    FirstBestIsUnique(entries, |xs|, i, j);
  }

  // ---- single picks -----------------------------------------------------

  /** The guard of a loop: the resource is not used up. */
  ghost predicate GoesOn(c: ClientState, list: seq<Result>, how: How, env: Env) {
    if how.ByPriority? || how.rt == 0 then StCpus(list) < env.ncpus as real
    else
      && how.rt < |c.coprocs|
      && exists i :: 0 <= i < |RowsAfter(c, list)[how.rt]| && RowsAfter(c, list)[how.rt][i] < 1.0
  }

  /** The pick that comes after some picks: the guard holds, no other job comes
      before it, and it is listed exactly if it fits. */
  ghost predicate RightPick(c: ClientState, env: Env, f: Forecast, s: Sums, picks: seq<Pick>, pick: Pick)
    reads c, c.tasks`hasShm
  {
    && pick.job in c.results && pick.job !in JobsOf(picks) && GoesOn(c, ListedOf(picks), pick.how, env)
    && (pick.listed <==> AdmitsAfter(c, ListedOf(picks), pick.job, env, f))
    && match pick.how
       case ByPriority(rivals) =>
         && !pick.job.UsesCoprocs() && pick.job in env.runnable
         && (forall q :: q in rivals ==> q in c.projects && Competes(c, env, q))
         && IsFirst(c.projects, RivalEntries(c, rivals, f, s, ListedOf(picks)), pick.job.project)
       case _ => IsFirst(c.results, JobEntries(c, pick.how, env, f, s, picks), pick.job)
  }

  ghost predicate RightPicks(c: ClientState, env: Env, f: Forecast, s: Sums, picks: seq<Pick>)
    reads c, c.tasks`hasShm
  {
    forall k :: 0 <= k < |picks| ==> RightPick(c, env, f, s, picks[..k], picks[k])
  }

  lemma RightNext(c: ClientState, env: Env, f: Forecast, s: Sums, picks: seq<Pick>, pick: Pick)
    requires RightPicks(c, env, f, s, picks) && RightPick(c, env, f, s, picks, pick)
    ensures RightPicks(c, env, f, s, picks + [pick])
    ensures ListedOf(picks + [pick]) == if pick.listed then ListedOf(picks) + [pick.job] else ListedOf(picks)
  {
    hide RightPick;
    var next := picks + [pick];
    assert next[..|picks|] == picks;
    forall k | 0 <= k < |next| ensures RightPick(c, env, f, s, next[..k], next[k]) {
      assert next[..k] == picks[..k];
    }
  }

  /** A job that was picked but not listed would still not fit at the end. */
  lemma UnlistedIsRefused(c: ClientState, env: Env, f: Forecast, s: Sums, picks: seq<Pick>, k: nat)
    requires RightPicks(c, env, f, s, picks) && k < |picks| && !picks[k].listed && NoneNegative(c, ListedOf(picks), env)
    ensures !AdmitsAfter(c, ListedOf(picks), picks[k].job, env, f)
  {
    assert RightPick(c, env, f, s, picks[..k], picks[k]);
    ListedSplit(picks, k);
    var more := ListedOf(picks[k..]);
    assert forall r :: r in more ==> r in ListedOf(picks);
    StillRefused(c, ListedOf(picks[..k]), more, picks[k].job, env, f);
  }

  /** A pick by priority is of the project that, for its share, had least work. */
  lemma PickIsOfLeastServed(c: ClientState, env: Env, f: Forecast, s: Sums, picks: seq<Pick>, pick: Pick)
    requires RightPick(c, env, f, s, picks, pick) && pick.how.ByPriority? && s == SumsOf(c, env, f)
    ensures OfLeastServed(ListedOf(picks), pick, ChargesOf(f, s))
  {
    var list, p, rivals, w := ListedOf(picks), pick.job.project, pick.how.rivals, ChargesOf(f, s);
    var entries := RivalEntries(c, rivals, f, s, list);
    var at: nat :| at < |c.projects| && c.projects[at] == p && FirstBest(entries, |c.projects|, at);
    SharesAreInSum(c, env, f);
    forall q | q in rivals ensures FairTo(list, p, q, 0.0, w) {
      var k :| 0 <= k < |c.projects| && c.projects[k] == q;
      assert entries[k].In? && !Before(entries[k].rank, entries[at].rank);
      if p.resourceShare > 0.0 && q.resourceShare > 0.0 {
        PriorityIsShareOfWork(list, p, q, f, s);
        assert 0.0 / p.resourceShare == 0.0;
      }
    }
  }

  lemma PicksSplit(early: seq<Pick>, log: seq<Pick>, k: nat)
    requires k < |log|
    ensures (early + log)[..|early| + k] == early + log[..k] && (early + log)[|early| + k] == log[k]
    ensures ListedOf(early + log[..k]) == ListedOf(early) + ListedOf(log[..k])
  {
    ListedConcat(early, log[..k]);
  }

  /** So the picks by priority are fair, whatever came before them. */
  lemma LogIsOk(c: ClientState, env: Env, f: Forecast, s: Sums, early: seq<Pick>, log: seq<Pick>)
    requires RightPicks(c, env, f, s, early + log) && s == SumsOf(c, env, f)
    requires forall k :: 0 <= k < |log| ==> log[k].how.ByPriority?
    ensures LogOk(ListedOf(early), log, ChargesOf(f, s))
  {
    hide RightPick, OfLeastServed;
    forall k | 0 <= k < |log| ensures OfLeastServed(ListedOf(early) + ListedOf(log[..k]), log[k], ChargesOf(f, s)) {
      PicksSplit(early, log, k);
      assert RightPick(c, env, f, s, (early + log)[..|early| + k], (early + log)[|early| + k]);
      PickIsOfLeastServed(c, env, f, s, early + log[..k], log[k]);
    }
  }

  lemma {:induction false} ListedAt(picks: seq<Pick>, i: nat) returns (k: nat)
    requires i < |ListedOf(picks)|
    ensures k < |picks| && picks[k].listed && picks[k].job == ListedOf(picks)[i]
            && ListedOf(picks[..k]) == ListedOf(picks)[..i]
  {
    var front := picks[..|picks| - 1];
    if i < |ListedOf(front)| {
      k := ListedAt(front, i);
      assert picks[..k] == front[..k];
    } else {
      k := |picks| - 1;
    }
  }

  /** Each listed job fitted after the jobs listed before it. */
  lemma ListedFits(c: ClientState, env: Env, f: Forecast, s: Sums, picks: seq<Pick>, i: nat)
    requires RightPicks(c, env, f, s, picks) && i < |ListedOf(picks)|
    ensures AdmitsAfter(c, ListedOf(picks)[..i], ListedOf(picks)[i], env, f)
  {
    hide AdmitsAfter, ListedOf;
    var k := ListedAt(picks, i);
    assert RightPick(c, env, f, s, picks[..k], picks[k]);
  }

  // ---- the order of the loops -------------------------------------------

  /** The loops in their order, for `n` resource types: two for each GPU type, and
      two for the CPU. */
  function LoopOf(n: nat, how: How): nat {
    match how
    case Deadline(rt) => if rt == 0 then 2 * n else 2 * rt
    case Arrival(rt) => 2 * rt + 1
    case ByPriority(_) => 2 * n + 1
  }

  function HowIn(n: nat, loop: nat): How {
    if loop == 2 * n then Deadline(0) else if loop % 2 == 0 then Deadline(loop / 2) else Arrival(loop / 2)
  }

  ghost predicate InOrder(n: nat, picks: seq<Pick>) {
    && (forall k :: 0 <= k < |picks| ==> 2 <= LoopOf(n, picks[k].how))
    && forall k, l :: 0 <= k < l < |picks| ==> LoopOf(n, picks[k].how) <= LoopOf(n, picks[l].how)
  }

  ghost predicate UpTo(n: nat, picks: seq<Pick>, loop: nat) {
    forall k :: 0 <= k < |picks| ==> LoopOf(n, picks[k].how) <= loop
  }

  /** The resource is used up, or no job is left for the loop. */
  ghost predicate Over(c: ClientState, env: Env, f: Forecast, s: Sums, picks: seq<Pick>, how: How)
    reads c`tasks, c`results
  {
    !GoesOn(c, ListedOf(picks), how, env) || forall r :: r in c.results ==> JobEntry(c, r, how, env, f, s, picks).Out?
  }

  /** The loop was over when the picks of the later ones began. */
  ghost predicate Ended(c: ClientState, env: Env, f: Forecast, s: Sums, picks: seq<Pick>, loop: nat)
    reads c`tasks, c`results
  {
    var n := |c.coprocs|;
    exists m :: 0 <= m <= |picks| && UpTo(n, picks[..m], loop) && Over(c, env, f, s, picks[..m], HowIn(n, loop)) &&
      forall k :: m <= k < |picks| ==> LoopOf(n, picks[k].how) > loop
  }

  ghost predicate AllEnded(c: ClientState, env: Env, f: Forecast, s: Sums, picks: seq<Pick>, loops: nat)
    reads c`tasks, c`results
  {
    forall loop: nat :: 2 <= loop < loops ==> Ended(c, env, f, s, picks, loop)
  }

  lemma EndedNow(c: ClientState, env: Env, f: Forecast, s: Sums, picks: seq<Pick>, loop: nat)
    requires AllEnded(c, env, f, s, picks, loop) && UpTo(|c.coprocs|, picks, loop)
    requires Over(c, env, f, s, picks, HowIn(|c.coprocs|, loop))
    ensures AllEnded(c, env, f, s, picks, loop + 1)
  {
    hide Over, UpTo;
    assert picks[..|picks|] == picks;
    assert Ended(c, env, f, s, picks, loop);
  }

  lemma EndedNext(c: ClientState, env: Env, f: Forecast, s: Sums, picks: seq<Pick>, pick: Pick, loops: nat)
    requires AllEnded(c, env, f, s, picks, loops) && LoopOf(|c.coprocs|, pick.how) >= loops
    ensures AllEnded(c, env, f, s, picks + [pick], loops)
  {
    hide Over, UpTo;
    var next := picks + [pick];
    forall loop: nat | 2 <= loop < loops ensures Ended(c, env, f, s, next, loop) {
      assert Ended(c, env, f, s, picks, loop);
      var n := |c.coprocs|;
      var m :| 0 <= m <= |picks| && UpTo(n, picks[..m], loop) && Over(c, env, f, s, picks[..m], HowIn(n, loop)) &&
        forall k :: m <= k < |picks| ==> LoopOf(n, picks[k].how) > loop;
      assert next[..m] == picks[..m];
    }
  }

  lemma OrderNext(n: nat, picks: seq<Pick>, pick: Pick, loop: nat)
    requires InOrder(n, picks) && UpTo(n, picks, loop) && LoopOf(n, pick.how) == loop >= 2
    ensures InOrder(n, picks + [pick]) && UpTo(n, picks + [pick], loop)
  {
  }

  // ---- the picks before the last loop are determined --------------------

  /** The picks of all loops but the last: right ones, loop by loop, each loop to
      its end. */
  ghost predicate AllButLast(c: ClientState, env: Env, f: Forecast, s: Sums, picks: seq<Pick>)
    reads c, c.tasks`hasShm
  {
    var n := |c.coprocs|;
    RightPicks(c, env, f, s, picks) && InOrder(n, picks) && UpTo(n, picks, 2 * n)
      && AllEnded(c, env, f, s, picks, 2 * n + 1)
  }

  /** A loop that is over makes no pick. */
  lemma OverMakesNone(c: ClientState, env: Env, f: Forecast, s: Sums, picks: seq<Pick>, pick: Pick)
    requires RightPick(c, env, f, s, picks, pick) && !pick.how.ByPriority?
    ensures !Over(c, env, f, s, picks, pick.how)
  {
    hide GoesOn, AdmitsAfter, JobEntry;
    var entries := JobEntries(c, pick.how, env, f, s, picks);
    var at: nat :| at < |c.results| && c.results[at] == pick.job && FirstBest(entries, |c.results|, at);
    assert entries[at] == JobEntry(c, pick.job, pick.how, env, f, s, picks);
  }

  lemma PickAt(c: ClientState, env: Env, f: Forecast, s: Sums, picks: seq<Pick>, k: nat)
    requires AllButLast(c, env, f, s, picks) && k < |picks|
    ensures RightPick(c, env, f, s, picks[..k], picks[k]) && 2 <= LoopOf(|c.coprocs|, picks[k].how) <= 2 * |c.coprocs|
  {
    hide RightPick, AllEnded, LoopOf;
  }

  lemma HowIsIn(c: ClientState, env: Env, f: Forecast, s: Sums, picks: seq<Pick>, pick: Pick)
    requires RightPick(c, env, f, s, picks, pick) && 2 <= LoopOf(|c.coprocs|, pick.how) <= 2 * |c.coprocs|
    ensures pick.how == HowIn(|c.coprocs|, LoopOf(|c.coprocs|, pick.how)) && !pick.how.ByPriority?
  {
    hide IsFirst, AdmitsAfter, JobEntries, RivalEntries, Competes, RowsAfter, StCpus, JobsOf, ListedOf;
  }

  /** Which pick comes next, and that its loop was not over. */
  lemma PickOfLoop(c: ClientState, env: Env, f: Forecast, s: Sums, picks: seq<Pick>, k: nat)
    requires AllButLast(c, env, f, s, picks) && k < |picks|
    ensures RightPick(c, env, f, s, picks[..k], picks[k]) && !picks[k].how.ByPriority?
    ensures 2 <= LoopOf(|c.coprocs|, picks[k].how) <= 2 * |c.coprocs|
    ensures picks[k].how == HowIn(|c.coprocs|, LoopOf(|c.coprocs|, picks[k].how))
    ensures !Over(c, env, f, s, picks[..k], picks[k].how)
  {
    hide *;
    PickAt(c, env, f, s, picks, k);
    HowIsIn(c, env, f, s, picks[..k], picks[k]);
    OverMakesNone(c, env, f, s, picks[..k], picks[k]);
  }

  /** GPU types come in order and before the CPU, and of a type deadlines before
      arrivals. */
  lemma LoopsInOrder(c: ClientState, env: Env, f: Forecast, s: Sums, picks: seq<Pick>, i: nat, j: nat)
    requires AllButLast(c, env, f, s, picks) && i <= j < |picks|
    ensures !picks[i].how.ByPriority? && !picks[j].how.ByPriority?
    ensures picks[i].how.rt == 0 ==> picks[i].how == picks[j].how == Deadline(0)
    ensures picks[j].how.rt != 0 ==> 0 < picks[i].how.rt <= picks[j].how.rt
    ensures picks[i].how.rt == picks[j].how.rt && picks[j].how.Deadline? ==> picks[i].how.Deadline?
  {
    hide AllButLast;
    PickOfLoop(c, env, f, s, picks, i);
    PickOfLoop(c, env, f, s, picks, j);
    PicksClimb(c, env, f, s, picks, i, j);
    TypeOfPick(c, env, f, s, picks[..i], picks[i]);
    TypeOfPick(c, env, f, s, picks[..j], picks[j]);
  }

  lemma TypeOfPick(c: ClientState, env: Env, f: Forecast, s: Sums, picks: seq<Pick>, pick: Pick)
    requires RightPick(c, env, f, s, picks, pick) && !pick.how.ByPriority?
    ensures pick.how.rt == 0 || pick.how.rt < |c.coprocs|
  {
    hide IsFirst, AdmitsAfter, JobEntries, RowsAfter, StCpus, JobsOf, ListedOf;
  }

  lemma PicksClimb(c: ClientState, env: Env, f: Forecast, s: Sums, picks: seq<Pick>, i: nat, j: nat)
    requires AllButLast(c, env, f, s, picks) && i <= j < |picks|
    ensures LoopOf(|c.coprocs|, picks[i].how) <= LoopOf(|c.coprocs|, picks[j].how)
  {
    hide RightPicks, AllEnded, LoopOf;
  }

  /** Where one sequence goes on, the other cannot be past that loop. */
  lemma SameLoop(c: ClientState, env: Env, f: Forecast, s: Sums, a: seq<Pick>, b: seq<Pick>, k: nat)
    requires AllButLast(c, env, f, s, a) && AllButLast(c, env, f, s, b) && k < |a| && k <= |b| && a[..k] == b[..k]
    ensures k < |b| && LoopOf(|c.coprocs|, b[k].how) <= LoopOf(|c.coprocs|, a[k].how)
  {
    hide Over, RightPicks, LoopOf, HowIn;
    PickOfLoop(c, env, f, s, a, k);
    var n := |c.coprocs|;
    var loop := LoopOf(n, a[k].how);
    forall i | 0 <= i < k ensures LoopOf(n, b[i].how) <= loop {
      assert b[i] == b[..k][i] == a[i];
    }
    assert Ended(c, env, f, s, b, loop);
    var m :| 0 <= m <= |b| && UpTo(n, b[..m], loop) && Over(c, env, f, s, b[..m], HowIn(n, loop)) &&
      forall i :: m <= i < |b| ==> LoopOf(n, b[i].how) > loop;
    assert k < m && b[..m][k] == b[k];
  }

  lemma {:induction false} SamePicks(c: ClientState, env: Env, f: Forecast, s: Sums, a: seq<Pick>, b: seq<Pick>, k: nat)
    requires AllButLast(c, env, f, s, a) && AllButLast(c, env, f, s, b) && k <= |a|
    ensures k <= |b| && a[..k] == b[..k]
  {
    hide *;
    if k > 0 {
      var i := k - 1;
      SamePicks(c, env, f, s, a, b, i);
      SameLoop(c, env, f, s, a, b, i);
      SameLoop(c, env, f, s, b, a, i);
      PickOfLoop(c, env, f, s, a, i);
      PickOfLoop(c, env, f, s, b, i);
      SamePick(c, env, f, s, a[..i], a[i], b[i]);
      assert a[..k] == a[..i] + [a[i]] && b[..k] == b[..i] + [b[i]];
    }
  }

  lemma SamePick(c: ClientState, env: Env, f: Forecast, s: Sums, picks: seq<Pick>, x: Pick, y: Pick)
    requires RightPick(c, env, f, s, picks, x) && RightPick(c, env, f, s, picks, y) && x.how == y.how
             && !x.how.ByPriority?
    ensures x == y
  {
    hide IsFirst, AdmitsAfter, GoesOn, JobEntries;
    FirstIsUnique(c.results, JobEntries(c, x.how, env, f, s, picks), x.job, y.job);
  }

  /** All but the jobs by priority is determined by the client. */
  lemma EarlyIsUnique(c: ClientState, env: Env, f: Forecast, s: Sums, a: seq<Pick>, b: seq<Pick>)
    requires AllButLast(c, env, f, s, a) && AllButLast(c, env, f, s, b)
    ensures a == b
  {
    hide AllButLast;
    SamePicks(c, env, f, s, a, b, |a|);
    SamePicks(c, env, f, s, b, a, |b|);
    assert a[..|a|] == a && b[..|b|] == b;
  }

  // ---- who has a candidate, and which -----------------------------------

  /** The candidates of the projects, and the CPU jobs that can still become one. */
  datatype Lineup = Lineup(of: map<Project, Result?>, open: set<Result>) {
    function Candidate(p: Project): Result? {
      if p in of then of[p] else null
    }

    /** The candidate of the project has been taken. */
    function Without(p: Project): Lineup {
      Lineup(of[p := null], open)
    }
  }

  /** The first scan, from the jobs that are open. */
  ghost function ChosenFrom(c: ClientState, p: Project, start: Result?, open: set<Result>, n: nat): Result?
    requires n <= |c.tasks|
    reads c`tasks, c.tasks`taskState, c.tasks`schedulerState
  {
    if n == 0 then start
    else
      var best, t := ChosenFrom(c, p, start, open, n - 1), c.tasks[n - 1];
      if t.result.project == p && RunnableTask(t.taskState) && t.result in open
        && (best == null || TakesOver(c, t, best))
      then t.result else best
  }

  /** The second scan. */
  ghost function TasklessFrom(c: ClientState, p: Project, open: set<Result>, n: nat): Result?
    requires n <= |c.results|
    reads c`tasks, c`results
  {
    if n == 0 then null
    else
      var found, r := TasklessFrom(c, p, open, n - 1), c.results[n - 1];
      if found == null && r.project == p && r in open && !HasTask(c.tasks, r) then r else found
  }

  /** The candidates once they have been given out. */
  ghost function Offered(c: ClientState, u: Lineup): Lineup
    reads c`tasks, c`results, c`projects, c.tasks`taskState, c.tasks`schedulerState
  {
    var of := map p | p in c.projects ::
      OrElse(ChosenFrom(c, p, u.Candidate(p), u.open, |c.tasks|), TasklessFrom(c, p, u.open, |c.results|));
    Lineup(of, set r | r in u.open && (r.project in of ==> of[r.project] != r))
  }

  ghost function RivalsIn(c: ClientState, u: Lineup): set<Project>
    reads c`projects
  {
    set p | p in c.projects && u.Candidate(p) != null && !p.nonCpuIntensive
  }

  /** Before the first pick by priority no project has a candidate. */
  ghost function LineupAfter(c: ClientState, env: Env, early: seq<Pick>, log: seq<Pick>): Lineup
    reads c`tasks, c`results, c`projects, c.tasks`taskState, c.tasks`schedulerState
    decreases |log|
  {
    if log == [] then
      Lineup(map[], set r | r in c.results && !r.UsesCoprocs() && r in env.runnable && r !in JobsOf(early))
    else
      Offered(c, LineupAfter(c, env, early, log[..|log| - 1])).Without(log[|log| - 1].job.project)
  }

  /** The rivals are the projects that have a candidate, and the job is one's. */
  ghost predicate RightChoice(c: ClientState, u: Lineup, job: Result, rivals: set<Project>)
    reads c`tasks, c`results, c`projects, c.tasks`taskState, c.tasks`schedulerState
  {
    var v := Offered(c, u);
    rivals == RivalsIn(c, v) && v.Candidate(job.project) == job
  }

  /** Each pick by priority is of its project's candidate, as the picks before leave it. */
  ghost predicate RightChoices(c: ClientState, env: Env, early: seq<Pick>, log: seq<Pick>)
    reads c`tasks, c`results, c`projects, c.tasks`taskState, c.tasks`schedulerState
  {
    forall k :: 0 <= k < |log| ==>
      log[k].how.ByPriority? && RightChoice(c, LineupAfter(c, env, early, log[..k]), log[k].job, log[k].Rivals())
  }

  lemma ChoicesNext(c: ClientState, env: Env, early: seq<Pick>, log: seq<Pick>, pick: Pick)
    requires RightChoices(c, env, early, log) && pick.how.ByPriority?
    requires RightChoice(c, LineupAfter(c, env, early, log), pick.job, pick.Rivals())
    ensures RightChoices(c, env, early, log + [pick])
    ensures LineupAfter(c, env, early, log + [pick]) ==
              Offered(c, LineupAfter(c, env, early, log)).Without(pick.job.project)
  {
    hide RightChoice, Offered;
    var next := log + [pick];
    assert next[..|log|] == log;
    forall k | 0 <= k < |next|
      ensures next[k].how.ByPriority?
              && RightChoice(c, LineupAfter(c, env, early, next[..k]), next[k].job, next[k].Rivals())
    {
      assert next[..k] == log[..k];
    }
  }

  /** The CPUs are used up, or no project has a candidate. */
  ghost predicate LastOver(c: ClientState, env: Env, early: seq<Pick>, log: seq<Pick>)
    reads c`tasks, c`results, c`projects, c.tasks`taskState, c.tasks`schedulerState
  {
    StCpus(ListedOf(early + log)) >= env.ncpus as real || RivalsIn(c, Offered(c, LineupAfter(c, env, early, log))) == {}
  }

  /** All picks of all loops. */
  ghost predicate AllPicks(c: ClientState, env: Env, f: Forecast, s: Sums, early: seq<Pick>, log: seq<Pick>)
    reads c, c.tasks`hasShm, c.tasks`taskState, c.tasks`schedulerState
  {
    && AllButLast(c, env, f, s, early) && RightPicks(c, env, f, s, early + log)
    && RightChoices(c, env, early, log) && LastOver(c, env, early, log)
  }

  lemma LastIsNotOver(c: ClientState, env: Env, f: Forecast, s: Sums, early: seq<Pick>, log: seq<Pick>, pick: Pick)
    requires RightPick(c, env, f, s, early + log, pick) && pick.how.ByPriority?
    requires RightChoice(c, LineupAfter(c, env, early, log), pick.job, pick.Rivals())
    ensures !LastOver(c, env, early, log)
  {
    hide LineupAfter, Offered, AdmitsAfter, StCpus, Competes;
    var rivals := pick.how.rivals;
    var entries := RivalEntries(c, rivals, f, s, ListedOf(early + log));
    var at: nat :| at < |c.projects| && c.projects[at] == pick.job.project && FirstBest(entries, |c.projects|, at);
    assert pick.job.project in rivals;
  }

  /** Who is picked by priority is determined too. */
  lemma SameChoice(c: ClientState, env: Env, f: Forecast, s: Sums, early: seq<Pick>, log: seq<Pick>, x: Pick, y: Pick)
    requires RightPick(c, env, f, s, early + log, x) && RightPick(c, env, f, s, early + log, y)
    requires x.how.ByPriority? && RightChoice(c, LineupAfter(c, env, early, log), x.job, x.Rivals())
    requires y.how.ByPriority? && RightChoice(c, LineupAfter(c, env, early, log), y.job, y.Rivals())
    ensures x == y
  {
    hide LineupAfter, Offered, AdmitsAfter, StCpus, Competes, IsFirst, RivalEntries;
    FirstIsUnique(c.projects, RivalEntries(c, x.how.rivals, f, s, ListedOf(early + log)), x.job.project, y.job.project);
  }

  lemma ChoiceAt(c: ClientState, env: Env, f: Forecast, s: Sums, early: seq<Pick>, log: seq<Pick>, k: nat)
    requires AllPicks(c, env, f, s, early, log) && k < |log|
    ensures RightPick(c, env, f, s, early + log[..k], log[k]) && log[k].how.ByPriority?
    ensures RightChoice(c, LineupAfter(c, env, early, log[..k]), log[k].job, log[k].Rivals())
  {
    hide RightPick, RightChoice, LineupAfter, AllButLast, LastOver;
    PicksSplit(early, log, k);
    assert RightPick(c, env, f, s, (early + log)[..|early| + k], (early + log)[|early| + k]);
  }

  lemma {:induction false} SameLog(c: ClientState, env: Env, f: Forecast, s: Sums, early: seq<Pick>,
                                   a: seq<Pick>, b: seq<Pick>, k: nat)
    requires AllPicks(c, env, f, s, early, a) && AllPicks(c, env, f, s, early, b) && k <= |a|
    ensures k <= |b| && a[..k] == b[..k]
  {
    hide *;
    if k > 0 {
      var i := k - 1;
      SameLog(c, env, f, s, early, a, b, i);
      ChoiceAt(c, env, f, s, early, a, i);
      LastIsNotOver(c, env, f, s, early, a[..i], a[i]);
      NotCutShort(c, env, f, s, early, b, i);
      ChoiceAt(c, env, f, s, early, b, i);
      SameChoice(c, env, f, s, early, a[..i], a[i], b[i]);
      assert a[..k] == a[..i] + [a[i]] && b[..k] == b[..i] + [b[i]];
    }
  }

  lemma NotCutShort(c: ClientState, env: Env, f: Forecast, s: Sums, early: seq<Pick>, log: seq<Pick>, k: nat)
    requires AllPicks(c, env, f, s, early, log) && k <= |log| && !LastOver(c, env, early, log[..k])
    ensures k < |log|
  {
    hide LastOver, RightChoices, RightPicks, AllButLast;
    assert log[..|log|] == log;
  }

  /** The client determines what is picked: there is only one sequence of picks, and
      so only one list, that the loops can make. */
  lemma PicksAreUnique(c: ClientState, env: Env, f: Forecast, s: Sums, early: seq<Pick>, log: seq<Pick>,
                       early': seq<Pick>, log': seq<Pick>)
    requires AllPicks(c, env, f, s, early, log) && AllPicks(c, env, f, s, early', log')
    ensures early == early' && log == log'
  {
    EarlyIsUnique(c, env, f, s, early, early');
    hide AllPicks;
    SameLog(c, env, f, s, early, log, log', |log|);
    SameLog(c, env, f, s, early, log', log, |log'|);
    assert log[..|log|] == log && log'[..|log'|] == log';
  }
}
