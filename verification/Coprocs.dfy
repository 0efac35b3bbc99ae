/** The coprocessor bookkeeping of client/cpu_sched.cpp:1072-1309, in place on
    the usage arrays of one resource type. */
module Coprocs {
  import opened GpuAssignment
  import opened ClientTypes
  import opened Lists
  import opened Wrappers

  class Coproc {
    const count: nat
    var usage: seq<real>
    var pending: seq<real>

    ghost predicate Valid()
      reads this
    {
      |usage| == |pending| == count
    }

    ghost function View(): Row
      reads this
    {
      Row(usage, pending)
    }

    constructor (count: nat)
      ensures Valid() && this.count == count
    {
      this.count := count;
      usage := seq(count, i => 0.0);
      pending := seq(count, i => 0.0);
    }

    method ClearUsage()
      requires Valid()
      modifies this
      ensures Valid() && forall i :: 0 <= i < count ==> usage[i] == 0.0 && pending[i] == 0.0
    {
      for i := 0 to count
        invariant Valid() && forall k :: 0 <= k < i ==> usage[k] == 0.0 && pending[k] == 0.0
      {
        usage, pending := usage[i := 0.0], pending[i := 0.0];
      }
    }
  }

  /** The job is recorded on as many different instances as it asks for, with its
      share of each, and, unless it was running, on none that it is kept off. */
  ghost predicate Given(cp: Coproc, r: Result, running: bool)
    reads cp, r`coprocIndices
  {
    var n := if r.gpuUsage < 1.0 then 1 else r.gpuUsage.Floor;
    && n <= |r.coprocIndices| && Distinct(r.coprocIndices[..n])
    && forall k :: 0 <= k < n ==>
         && r.coprocIndices[k] < |cp.usage| && (running || r.coprocIndices[k] !in r.excluded)
         && cp.usage[r.coprocIndices[k]] >= if r.gpuUsage < 1.0 then r.gpuUsage else 1.0
  }

  /** A running job has no room left on an instance that it holds; a fractional one
      on no instance that it may use; for others too few of these are unused. */
  ghost predicate Denied(cp: Coproc, r: Result, running: bool)
    reads cp, r`coprocIndices
  {
    if running then
      exists k :: 0 <= k < |r.coprocIndices| && k as real < r.gpuUsage && r.coprocIndices[k] < |cp.usage| &&
        cp.usage[r.coprocIndices[k]] + (if r.gpuUsage < 1.0 then r.gpuUsage else 1.0) > 1.0
    else if r.gpuUsage < 1.0 then
      forall i :: 0 <= i < |cp.usage| && i < |cp.pending| && i !in r.excluded ==>
        cp.usage[i] > 0.0 && cp.usage[i] + cp.pending[i] + r.gpuUsage > 1.0
    else |set i: nat | i < |cp.usage| && i !in r.excluded && cp.usage[i] == 0.0| as real < r.gpuUsage
  }

  /** What the assignment on values refuses is refused in these terms. */
  lemma TurnedAwayIsDenied(cp: Coproc, r: Result, running: bool)
    requires cp.Valid() && r.UsesCoprocs() && r.UsageOk() && RowOk(cp.View())
    requires running ==> HoldsIn(r.Held(), r.gpuUsage, cp.count)
    requires TurnedAway(cp.View(), r.AsJob(running))
    ensures Denied(cp, r, running)
  {
    var j := r.AsJob(running);
    if running {
      var k :| 0 <= k < |j.held| && cp.usage[j.held[k]] + Share(j.usage) > 1.0;
      TurnsOf(r.gpuUsage, k);
      assert r.coprocIndices[k] == j.held[k];
    } else if r.gpuUsage >= 1.0 {
      FreeCountIs(cp.View(), j, |cp.usage|);
    }
  }

  lemma HeldIsGiven(cp: Coproc, r: Result, running: bool)
    requires cp.Valid() && r.UsesCoprocs() && r.UsageOk() && |r.coprocIndices| == MAX_COPROCS_PER_JOB
    requires HoldsIn(r.Held(), r.gpuUsage, cp.count)
    requires running || forall i :: i in r.AsJob(running).held ==> i !in r.AsJob(running).excluded
    requires forall i :: i in r.Held() && i < cp.count ==> cp.usage[i] >= Share(r.gpuUsage)
    ensures Given(cp, r, running)
  {
    var n, held := if r.gpuUsage < 1.0 then 1 else r.gpuUsage.Floor, r.Held();
    assert n == Count(r.gpuUsage) && held == r.coprocIndices[..n] == r.AsJob(running).held;
    forall k | 0 <= k < n
      ensures && r.coprocIndices[k] < |cp.usage| && (running || r.coprocIndices[k] !in r.excluded)
              && cp.usage[r.coprocIndices[k]] >= if r.gpuUsage < 1.0 then r.gpuUsage else 1.0
    {
      assert r.coprocIndices[k] == held[k] && held[k] in held;
    }
  }

  lemma TurnsOf(usage: real, i: nat)
    requires GpuAssignment.UsageOk(usage)
    ensures i as real < usage <==> i < Count(usage)
  {
  }

  lemma AddShareNext(s: seq<real>, held: seq<nat>, i: nat, x: real)
    requires i < |held| && Distinct(held) && forall k :: 0 <= k < |held| ==> held[k] < |s|
    ensures AddShare(s, held[..i + 1], x) == AddShare(s, held[..i], x)[held[i] := s[held[i]] + x]
    ensures AddShare(s, held[..i], x)[held[i]] == s[held[i]]
  {
    assert held[..i + 1] == held[..i] + [held[i]];
  }

  lemma AddShareNone(s: seq<real>, x: real)
    ensures AddShare(s, [], x) == s
  {
  }

  /** The running job's instances get its usage as pending usage. */
  method IncrementPendingUsage(rp: Result, cp: Coproc)
    requires cp.Valid() && rp.UsesCoprocs() && rp.UsageOk() && HoldsIn(rp.Held(), rp.gpuUsage, cp.count)
    modifies cp`pending
    ensures cp.pending == AddShare(old(cp.pending), rp.Held(), Share(rp.gpuUsage))
  {
    ghost var held, was := rp.Held(), cp.pending;
    var x := Share(rp.gpuUsage);
    var i := 0;
    AddShareNone(was, x);
    while i as real < rp.gpuUsage
      invariant i <= Count(rp.gpuUsage)
      invariant cp.pending == AddShare(was, held[..i], x)
      decreases Count(rp.gpuUsage) - i
    {
      TurnsOf(rp.gpuUsage, i);
      AddShareNext(was, held, i, x);
      var j := rp.coprocIndices[i];
      cp.pending := cp.pending[j := cp.pending[j] + x];
      i := i + 1;
    }
    TurnsOf(rp.gpuUsage, i);
    assert held[..i] == held;
  }

  method CurrentAssignmentOk(rp: Result, cp: Coproc) returns (ok: bool)
    requires cp.Valid() && rp.UsesCoprocs() && rp.UsageOk() && HoldsIn(rp.Held(), rp.gpuUsage, cp.count)
    ensures ok <==> !TurnedAway(cp.View(), rp.AsJob(true))
  {
    var x := Share(rp.gpuUsage);
    var i := 0;
    while i as real < rp.gpuUsage
      invariant i <= Count(rp.gpuUsage)
      invariant forall k :: 0 <= k < i ==> cp.usage[rp.Held()[k]] + x <= 1.0
      decreases Count(rp.gpuUsage) - i
    {
      TurnsOf(rp.gpuUsage, i);
      var j := rp.coprocIndices[i];
      assert j == rp.Held()[i];
      if cp.usage[j] + x > 1.0 {
        assert cp.View().usage[rp.Held()[i]] + x > 1.0;
        return false;
      }
      i := i + 1;
    }
    TurnsOf(rp.gpuUsage, i);
    return true;
  }

  method ConfirmCurrentAssignment(rp: Result, cp: Coproc)
    requires cp.Valid() && rp.UsesCoprocs() && rp.UsageOk() && HoldsIn(rp.Held(), rp.gpuUsage, cp.count)
    modifies cp
    ensures cp.View() == Charge(old(cp.View()), rp.AsJob(true), rp.Held())
  {
    ghost var held, was := rp.Held(), cp.View();
    var x := Share(rp.gpuUsage);
    var i := 0;
    AddShareNone(was.usage, x);
    AddShareNone(was.pending, -x);
    while i as real < rp.gpuUsage
      invariant i <= Count(rp.gpuUsage)
      invariant cp.usage == AddShare(was.usage, held[..i], x)
      invariant cp.pending == AddShare(was.pending, held[..i], -x)
      decreases Count(rp.gpuUsage) - i
    {
      TurnsOf(rp.gpuUsage, i);
      AddShareNext(was.usage, held, i, x);
      AddShareNext(was.pending, held, i, -x);
      var j := rp.coprocIndices[i];
      cp.usage := cp.usage[j := cp.usage[j] + x];
      cp.pending := cp.pending[j := cp.pending[j] - x];
      i := i + 1;
    }
    TurnsOf(rp.gpuUsage, i);
    assert held[..i] == held;
  }

  /** What an attempt to place job `j` on row `was` must have done. */
  ghost predicate Assigned(ok: bool, was: Row, j: Job, now: Row, held: seq<nat>)
    requires |was.usage| == |was.pending| && 0.0 < j.usage && !j.running
  {
    match Choose(was, j)
    case Some(chosen) => ok && held == chosen && now == Charge(was, j, chosen)
    case None => !ok && now == was
  }

  /** The fractional job is on an instance that it may use: one that carried fractional
      load and had room, if there is any, or else one that was unused. */
  ghost predicate OnAllowed(cp: Coproc, r: Result, usage: seq<real>, pending: seq<real>)
    reads cp, r`coprocIndices
  {
    && |r.coprocIndices| > 0 && |usage| == |pending| && r.coprocIndices[0] < |usage|
    && r.coprocIndices[0] !in r.excluded
    && (var x := r.coprocIndices[0];
        && cp.usage == usage[x := usage[x] + r.gpuUsage]
        && (|| ((usage[x] != 0.0 || pending[x] != 0.0) && usage[x] + pending[x] + r.gpuUsage <= 1.0)
            || (usage[x] == 0.0 &&
                forall i :: 0 <= i < |usage| && i !in r.excluded && (usage[i] != 0.0 || pending[i] != 0.0) ==>
                  usage[i] + pending[i] + r.gpuUsage > 1.0)))
  }

  /** A fractional job goes to the first instance that already carries
      fractional load and has room, or else to the first free one. */
  method GetFractionalAssignment(rp: Result, cp: Coproc) returns (ok: bool)
    requires cp.Valid() && rp.UsesCoprocs() && rp.UsageOk() && rp.gpuUsage < 1.0
    requires |rp.coprocIndices| == MAX_COPROCS_PER_JOB
    modifies cp`usage, rp`coprocIndices
    ensures Assigned(ok, old(cp.View()), old(rp.AsJob(false)), cp.View(), rp.Held())
    ensures !ok ==> rp.coprocIndices == old(rp.coprocIndices)
    ensures |rp.coprocIndices| == MAX_COPROCS_PER_JOB
    ensures if ok then OnAllowed(cp, rp, old(cp.usage), cp.pending)
            else
              cp.usage == old(cp.usage)
              && forall i :: 0 <= i < cp.count && i !in rp.excluded ==>
                   cp.usage[i] != 0.0 && cp.usage[i] + cp.pending[i] + rp.gpuUsage > 1.0
  {
    ghost var was, j := cp.View(), rp.AsJob(false);
    var i := 0;
    while i < cp.count
      invariant i <= cp.count
      invariant FirstShareable(was, j, 0) == FirstShareable(was, j, i)
      invariant forall k :: 0 <= k < i && k !in rp.excluded && (cp.usage[k] != 0.0 || cp.pending[k] != 0.0) ==>
                  cp.usage[k] + cp.pending[k] + rp.gpuUsage > 1.0
    {
      if i !in rp.excluded
        && (cp.usage[i] != 0.0 || cp.pending[i] != 0.0) && cp.usage[i] + cp.pending[i] + rp.gpuUsage <= 1.0
      {
        rp.coprocIndices := rp.coprocIndices[0 := i];
        cp.usage := cp.usage[i := cp.usage[i] + rp.gpuUsage];
        assert cp.usage == AddShare(was.usage, [i], rp.gpuUsage);
        return true;
      }
      i := i + 1;
    }
    i := 0;
    while i < cp.count
      invariant i <= cp.count
      invariant FirstFree(was, j, 0) == FirstFree(was, j, i)
      invariant forall k :: 0 <= k < i && k !in rp.excluded ==> cp.usage[k] != 0.0
    {
      if i !in rp.excluded && cp.usage[i] == 0.0 {
        rp.coprocIndices := rp.coprocIndices[0 := i];
        cp.usage := cp.usage[i := cp.usage[i] + rp.gpuUsage];
        assert cp.usage == AddShare(was.usage, [i], rp.gpuUsage);
        return true;
      }
      i := i + 1;
    }
    return false;
  }

  lemma {:induction false} FreeBelowPrefix(r: Row, j: Job, idle: bool, m: nat, n: nat)
    requires m <= n <= |r.usage| == |r.pending|
    ensures FreeBelow(r, j, idle, m) <= FreeBelow(r, j, idle, n)
  {
    if m < n {
      FreeBelowPrefix(r, j, idle, m, n - 1);
    }
  }

  /** What the second loop has taken when it reaches instance `i`. */
  ghost function ClaimedBelow(was: Row, j: Job, i: nat): seq<nat>
    requires i <= |was.usage| == |was.pending|
  {
    FreeBelow(was, j, true, |was.usage|) + FreeBelow(was, j, false, i)
  }

  /** The loops below meet the candidates in order: what they have taken so
      far is always a prefix. */
  lemma TakenInOrder(r: Row, j: Job, m: nat)
    requires m <= |r.usage| == |r.pending|
    ensures |FreeBelow(r, j, true, m)| <= |Candidates(r, j)| && |ClaimedBelow(r, j, m)| <= |Candidates(r, j)|
    ensures Candidates(r, j)[..|FreeBelow(r, j, true, m)|] == FreeBelow(r, j, true, m)
    ensures Candidates(r, j)[..|ClaimedBelow(r, j, m)|] == ClaimedBelow(r, j, m)
  {
    FreeBelowPrefix(r, j, true, m, |r.usage|);
    FreeBelowPrefix(r, j, false, m, |r.usage|);
  }

  lemma CountExact(usage: real, n: nat)
    requires GpuAssignment.UsageOk(usage) && usage >= 1.0
    ensures n as real == usage <==> n == Count(usage)
  {
  }

  /** `usage` is the row's usage with the taken instances filled. */
  ghost predicate Filled(usage: seq<real>, was: Row, taken: seq<nat>) {
    |usage| == |was.usage| && forall k :: 0 <= k < |usage| ==> usage[k] == if k in taken then 1.0 else was.usage[k]
  }

  lemma FilledIsCharged(usage: seq<real>, was: Row, j: Job, taken: seq<nat>)
    requires RowOk(was) && Filled(usage, was, taken) && j.usage >= 1.0 && !j.running
    requires forall k :: 0 <= k < |taken| ==> taken[k] < |was.usage| && was.usage[taken[k]] == 0.0
    ensures Charge(was, j, taken) == Row(usage, was.pending)
  {
    assert AddShare(was.usage, taken, 1.0) == usage;
  }

  /** Number of free instances the job may use. */
  method CountFree(rp: Result, cp: Coproc) returns (nfree: nat)
    requires cp.Valid()
    ensures nfree == FreeCount(cp.View(), rp.AsJob(false), cp.count)
  {
    nfree := 0;
    for i := 0 to cp.count
      invariant nfree == FreeCount(cp.View(), rp.AsJob(false), i)
    {
      if i !in rp.excluded && cp.usage[i] == 0.0 {
        nfree := nfree + 1;
      }
    }
  }

  /** The state of the two assignment loops: `taken` instances are filled and recorded. */
  ghost predicate Taken(rp: Result, cp: Coproc, was: Row, taken: seq<nat>)
    reads rp, cp
  {
    && cp.Valid() && |rp.coprocIndices| == MAX_COPROCS_PER_JOB >= |taken|
    && rp.coprocIndices[..|taken|] == taken
    && Filled(cp.usage, was, taken) && cp.pending == was.pending
  }

  method Take(rp: Result, cp: Coproc, i: nat, n: nat, ghost was: Row, ghost taken: seq<nat>)
    requires Taken(rp, cp, was, taken) && n == |taken| < MAX_COPROCS_PER_JOB && i < cp.count
    modifies cp`usage, rp`coprocIndices
    ensures Taken(rp, cp, was, taken + [i])
  {
    cp.usage := cp.usage[i := 1.0];
    rp.coprocIndices := rp.coprocIndices[n := i];
    assert rp.coprocIndices[..n + 1] == rp.coprocIndices[..n] + [i];
  }

  /** One turn of the first loop. */
  method IdleTurn(rp: Result, cp: Coproc, i: nat, n: nat, ghost was: Row, ghost j: Job) returns (took: bool)
    requires i < |was.usage| == |was.pending| == cp.count && j.excluded == rp.excluded
    requires n == |FreeBelow(was, j, true, i)| < MAX_COPROCS_PER_JOB && Taken(rp, cp, was, FreeBelow(was, j, true, i))
    modifies cp`usage, rp`coprocIndices
    ensures Taken(rp, cp, was, FreeBelow(was, j, true, i + 1))
    ensures |FreeBelow(was, j, true, i + 1)| == if took then n + 1 else n
  {
    took := i !in rp.excluded && cp.usage[i] == 0.0 && cp.pending[i] == 0.0;
    if took {
      Take(rp, cp, i, n, was, FreeBelow(was, j, true, i));
    }
  }

  /** First loop: free instances without pending usage. */
  method TakeIdle(rp: Result, cp: Coproc, ghost was: Row, ghost j: Job) returns (n: nat, done: bool)
    requires Taken(rp, cp, was, []) && rp.UsesCoprocs() && rp.UsageOk() && rp.gpuUsage >= 1.0
    requires |was.usage| == |was.pending| == cp.count && j.excluded == rp.excluded
    modifies cp`usage, rp`coprocIndices
    ensures !done ==> n == |FreeBelow(was, j, true, cp.count)| < Count(rp.gpuUsage)
    ensures !done ==> Taken(rp, cp, was, FreeBelow(was, j, true, cp.count))
    ensures done ==> n == Count(rp.gpuUsage) <= |Candidates(was, j)| && Taken(rp, cp, was, Candidates(was, j)[..n])
  {
    n := 0;
    for i := 0 to cp.count
      invariant n == |FreeBelow(was, j, true, i)| < Count(rp.gpuUsage)
      invariant Taken(rp, cp, was, FreeBelow(was, j, true, i))
    {
      var took := IdleTurn(rp, cp, i, n, was, j);
      if took {
        n := n + 1;
        CountExact(rp.gpuUsage, n);
        if n as real == rp.gpuUsage {
          TakenInOrder(was, j, i + 1);
          return n, true;
        }
      }
    }
    return n, false;
  }

  lemma NextClaimed(usage: seq<real>, was: Row, j: Job, i: nat)
    requires i < |was.usage| == |was.pending| && Filled(usage, was, ClaimedBelow(was, j, i))
    ensures var now, next := ClaimedBelow(was, j, i), ClaimedBelow(was, j, i + 1);
            next == if i !in j.excluded && usage[i] == 0.0 then now + [i] else now
  {
    var idle, taken := FreeBelow(was, j, true, |was.usage|), FreeBelow(was, j, false, i);
    assert forall k :: 0 <= k < |taken| ==> taken[k] < i;
    assert i in idle + taken <==> i in idle;
    if i !in j.excluded && was.usage[i] == 0.0 && was.pending[i] == 0.0 {
      FreeBelowHas(was, j, true, |was.usage|, i);
    }
    assert (idle + taken) + [i] == idle + (taken + [i]);
  }

  /** One turn of the second loop. */
  method ClaimTurn(rp: Result, cp: Coproc, i: nat, n: nat, ghost was: Row, ghost j: Job) returns (took: bool)
    requires i < |was.usage| == |was.pending| == cp.count && j.excluded == rp.excluded
    requires n == |ClaimedBelow(was, j, i)| < MAX_COPROCS_PER_JOB && Taken(rp, cp, was, ClaimedBelow(was, j, i))
    modifies cp`usage, rp`coprocIndices
    ensures Taken(rp, cp, was, ClaimedBelow(was, j, i + 1))
    ensures |ClaimedBelow(was, j, i + 1)| == if took then n + 1 else n
  {
    NextClaimed(cp.usage, was, j, i);
    took := i !in rp.excluded && cp.usage[i] == 0.0;
    if took {
      Take(rp, cp, i, n, was, ClaimedBelow(was, j, i));
    }
  }

  /** Second loop: the other free instances. */
  method TakeClaimed(rp: Result, cp: Coproc, first: nat, ghost was: Row, ghost j: Job) returns (n: nat, done: bool)
    requires |was.usage| == |was.pending| == cp.count && rp.UsesCoprocs() && rp.UsageOk() && rp.gpuUsage >= 1.0
    requires Taken(rp, cp, was, FreeBelow(was, j, true, cp.count)) && j.excluded == rp.excluded
    requires first == |FreeBelow(was, j, true, cp.count)| < Count(rp.gpuUsage)
    modifies cp`usage, rp`coprocIndices
    ensures !done ==> |Candidates(was, j)| < Count(rp.gpuUsage)
    ensures done ==> n == Count(rp.gpuUsage) <= |Candidates(was, j)| && Taken(rp, cp, was, Candidates(was, j)[..n])
  {
    hide Coproc.Valid, Taken;
    n := first;
    assert ClaimedBelow(was, j, 0) == FreeBelow(was, j, true, cp.count);
    for i := 0 to cp.count
      invariant n == |ClaimedBelow(was, j, i)| < Count(rp.gpuUsage)
      invariant Taken(rp, cp, was, ClaimedBelow(was, j, i))
    {
      var took := ClaimTurn(rp, cp, i, n, was, j);
      if took {
        n := n + 1;
        CountExact(rp.gpuUsage, n);
        if n as real == rp.gpuUsage {
          TakenInOrder(was, j, i + 1);
          return n, true;
        }
      }
    }
    return n, false;
  }

  lemma TookIsCharged(rp: Result, cp: Coproc, was: Row, j: Job, n: nat)
    requires RowOk(was) && rp.UsesCoprocs() && rp.UsageOk() && rp.gpuUsage >= 1.0
    requires j.usage == rp.gpuUsage && !j.running && n <= |Candidates(was, j)|
    requires |was.usage| == cp.count && n == Count(rp.gpuUsage) && Taken(rp, cp, was, Candidates(was, j)[..n])
    ensures Choose(was, j) == Some(rp.Held()) && cp.View() == Charge(was, j, rp.Held())
  {
    FilledIsCharged(cp.usage, was, j, Candidates(was, j)[..n]);
  }

  /** A whole-instance job takes the free instances with no pending usage
      first, then the other free ones; with enough free instances it never
      runs out. */
  method GetIntegerAssignment(rp: Result, cp: Coproc) returns (ok: bool)
    requires cp.Valid() && rp.UsesCoprocs() && rp.UsageOk() && rp.gpuUsage >= 1.0
    requires |rp.coprocIndices| == MAX_COPROCS_PER_JOB && RowOk(cp.View())
    modifies cp`usage, rp`coprocIndices
    ensures Assigned(ok, old(cp.View()), old(rp.AsJob(false)), cp.View(), rp.Held())
    ensures !ok ==> rp.coprocIndices == old(rp.coprocIndices)
    ensures |rp.coprocIndices| == MAX_COPROCS_PER_JOB
    ensures ok <==> |set i: nat | i < cp.count && i !in rp.excluded && old(cp.usage)[i] == 0.0| as real >= rp.gpuUsage
  {
    ghost var was, j := cp.View(), rp.AsJob(false);
    FreeCountIs(was, j, cp.count);
    var nfree := CountFree(rp, cp);
    FreeSplit(was, j, cp.count);
    TurnsOf(rp.gpuUsage, nfree);
    if nfree as real < rp.gpuUsage {
      return false;
    }
    var n, done := TakeIdle(rp, cp, was, j);
    if done {
      TookIsCharged(rp, cp, was, j, n);
      return true;
    }
    n, done := TakeClaimed(rp, cp, n, was, j);
    if done {
      TookIsCharged(rp, cp, was, j, n);
      return true;
    }
    // the count above rules out running out of instances here
    assert false;
  }
}
