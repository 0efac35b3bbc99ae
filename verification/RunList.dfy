/** Ordering of the run list: the importance order that `std::sort` is given,
    and the promotion of multi-thread jobs (client/cpu_sched.cpp:925-1000). */
module RunList {
  import opened ClientTypes

  // ---- promotion of multi-thread jobs -----------------------------------

  predicate IsMt(r: Result) {
    r.avgNcpus > 1.0
  }

  function Mt(l: seq<Result>): seq<Result> {
    if l == [] then [] else Mt(l[..|l| - 1]) + if IsMt(l[|l| - 1]) then [l[|l| - 1]] else []
  }

  function NonMt(l: seq<Result>): seq<Result> {
    if l == [] then [] else NonMt(l[..|l| - 1]) + if IsMt(l[|l| - 1]) then [] else [l[|l| - 1]]
  }

  function CpuSum(l: seq<Result>): real {
    if l == [] then 0.0 else CpuSum(l[..|l| - 1]) + l[|l| - 1].avgNcpus
  }

  /** Up to here the scan may go in the original order: no deadline miss, and
      CPUs left over at each job. */
  ghost predicate Passable(l: seq<Result>, ncpus: nat, missed: set<Result>, m: nat)
    requires m <= |l|
  {
    forall i :: 0 <= i < m ==> l[i] !in missed && CpuSum(l[..i]) < ncpus as real
  }

  function Stop(l: seq<Result>, ncpus: nat, missed: set<Result>, m: nat): (s: nat)
    requires m <= |l|
    ensures m <= s <= |l|
    ensures Passable(l, ncpus, missed, m) ==> Passable(l, ncpus, missed, s)
    ensures s < |l| ==> l[s] in missed || CpuSum(l[..s]) >= ncpus as real
    decreases |l| - m
  {
    if m == |l| || l[m] in missed || CpuSum(l[..m]) >= ncpus as real then m
    else Stop(l, ncpus, missed, m + 1)
  }

  /** The first `m` jobs with the multi-thread ones in front, and the rest as it was. */
  function Settled(l: seq<Result>, m: nat): (s: seq<Result>)
    requires m <= |l|
    ensures |s| == |l|
  {
    PartitionFacts(l[..m]);
    Mt(l[..m]) + NonMt(l[..m]) + l[m..]
  }

  /** What the promotion amounts to: one stable partition of the jobs in front
      of the first deadline miss or the point where the CPUs run out. */
  function Promoted(l: seq<Result>, ncpus: nat, missed: set<Result>): (p: seq<Result>)
    ensures |p| == |l|
  {
    Settled(l, Stop(l, ncpus, missed, 0))
  }

  lemma {:induction false} PartitionKinds(l: seq<Result>)
    ensures forall k :: 0 <= k < |Mt(l)| ==> IsMt(Mt(l)[k])
    ensures forall k :: 0 <= k < |NonMt(l)| ==> !IsMt(NonMt(l)[k])
  {
    if l != [] {
      PartitionKinds(l[..|l| - 1]);
    }
  }

  lemma {:induction false} PartitionMembers(l: seq<Result>)
    ensures |Mt(l)| + |NonMt(l)| == |l| && multiset(Mt(l)) + multiset(NonMt(l)) == multiset(l)
  {
    if l != [] {
      var front, r := l[..|l| - 1], l[|l| - 1];
      PartitionMembers(front);
      assert multiset(l) == multiset(front) + multiset{r} by {
        assert l == front + [r];
      }
      if IsMt(r) {
        assert Mt(l) == Mt(front) + [r] && NonMt(l) == NonMt(front);
      } else {
        assert Mt(l) == Mt(front) && NonMt(l) == NonMt(front) + [r];
      }
    }
  }

  lemma PartitionFacts(l: seq<Result>)
    ensures |Mt(l)| + |NonMt(l)| == |l|
    ensures forall k :: 0 <= k < |Mt(l)| ==> IsMt(Mt(l)[k])
    ensures forall k :: 0 <= k < |NonMt(l)| ==> !IsMt(NonMt(l)[k])
    ensures multiset(Mt(l)) + multiset(NonMt(l)) == multiset(l)
  {
    PartitionKinds(l);
    PartitionMembers(l);
  }

  lemma {:induction false} CpuSumConcat(a: seq<Result>, b: seq<Result>)
    ensures CpuSum(a + b) == CpuSum(a) + CpuSum(b)
    decreases |b|
  {
    if b == [] {
      assert a + b == a;
    } else {
      assert (a + b)[..|a + b| - 1] == a + b[..|b| - 1];
      CpuSumConcat(a, b[..|b| - 1]);
    }
  }

  ghost predicate NcpusOk(l: seq<Result>) {
    forall r :: r in l ==> r.avgNcpus >= 0.0
  }

  lemma CpuSumNext(l: seq<Result>, r: Result)
    ensures CpuSum([]) == 0.0 && CpuSum(l + [r]) == CpuSum(l) + r.avgNcpus
  {
    assert (l + [r])[..|l|] == l;
  }

  lemma {:induction false} CpuSumPartition(l: seq<Result>)
    ensures CpuSum(Mt(l)) + CpuSum(NonMt(l)) == CpuSum(l)
    ensures CpuSum(Mt(l) + NonMt(l)) == CpuSum(l)
  {
    CpuSumConcat(Mt(l), NonMt(l));
    if l != [] {
      var front, r := l[..|l| - 1], l[|l| - 1];
      CpuSumPartition(front);
      if IsMt(r) {
        CpuSumNext(Mt(front), r);
        assert NonMt(front) + [] == NonMt(front);
      } else {
        CpuSumNext(NonMt(front), r);
        assert Mt(front) + [] == Mt(front);
      }
    }
  }

  lemma {:induction false} CpuSumPrefix(l: seq<Result>, k: nat)
    requires k <= |l| && NcpusOk(l)
    ensures 0.0 <= CpuSum(l[..k]) <= CpuSum(l)
    decreases |l|
  {
    if k < |l| {
      var front := l[..|l| - 1];
      assert front[..k] == l[..k] && l[|l| - 1] in l;
      assert forall r :: r in front ==> r in l;
      CpuSumPrefix(front, k);
    } else if l != [] {
      var front := l[..|l| - 1];
      assert l[..k] == l && l[|l| - 1] in l;
      assert front[..|front|] == front && forall r :: r in front ==> r in l;
      CpuSumPrefix(front, |front|);
    } else {
      assert l[..k] == [];
    }
  }

  lemma PartitionNext(l: seq<Result>, p: nat)
    requires p < |l|
    ensures Mt(l[..p + 1]) == Mt(l[..p]) + if IsMt(l[p]) then [l[p]] else []
    ensures NonMt(l[..p + 1]) == NonMt(l[..p]) + if IsMt(l[p]) then [] else [l[p]]
  {
    assert l[..p + 1][..p] == l[..p];
  }

  /** One more job settles: it goes behind the multi-thread jobs if it is one. */
  lemma SettledNext(l: seq<Result>, p: nat)
    requires p < |l|
    ensures |Mt(l[..p])| <= p && |Settled(l, p)| == |Settled(l, p + 1)| == |l| && Settled(l, p)[p] == l[p]
    ensures |Mt(l[..p + 1])| == |Mt(l[..p])| + if IsMt(l[p]) then 1 else 0
    ensures !IsMt(l[p]) || |Mt(l[..p])| == p ==> Settled(l, p + 1) == Settled(l, p)
    ensures IsMt(l[p]) ==> Settled(l, p + 1) == Moved(Settled(l, p), p, |Mt(l[..p])|)
  {
    hide Mt, NonMt;
    PartitionMembers(l[..p]);
    PartitionNext(l, p);
    var mt, non, rest := Mt(l[..p]), NonMt(l[..p]), l[p + 1..];
    assert l[p..] == [l[p]] + rest;
    assert Settled(l, p) == mt + non + [l[p]] + rest;
    if !IsMt(l[p]) {
      assert Settled(l, p + 1) == mt + (non + [l[p]]) + rest;
    } else {
      assert Settled(l, p + 1) == mt + [l[p]] + non + rest;
      MovedParts(mt, non, l[p], rest);
    }
  }

  /** Erase position `from` and insert the job in front of position `to`. */
  function Moved(s: seq<Result>, from: nat, to: nat): seq<Result>
    requires to <= from < |s|
  {
    var erased := s[..from] + s[from + 1..];
    erased[..to] + [s[from]] + erased[to..]
  }

  lemma MovedParts(a: seq<Result>, b: seq<Result>, x: Result, c: seq<Result>)
    ensures Moved(a + b + [x] + c, |a| + |b|, |a|) == a + [x] + b + c
  {
    var s := a + b + [x] + c;
    assert s[..|a| + |b|] + s[|a| + |b| + 1..] == a + b + c;
    assert (a + b + c)[..|a|] == a && (a + b + c)[|a|..] == b + c;
    assert a + [x] + (b + c) == a + [x] + b + c;
  }

  lemma PassableNext(l: seq<Result>, ncpus: nat, missed: set<Result>, p: nat)
    requires p < |l| && Passable(l, ncpus, missed, p) && l[p] !in missed && CpuSum(l[..p]) < ncpus as real
    ensures Passable(l, ncpus, missed, p + 1)
  {
  }

  /** The scan's running total, without slices. */
  function CpuTotal(l: seq<Result>, k: nat): real
    requires k <= |l|
  {
    if k == 0 then 0.0 else CpuTotal(l, k - 1) + l[k - 1].avgNcpus
  }

  lemma {:induction false} CpuTotalIsSum(l: seq<Result>, k: nat)
    requires k <= |l|
    ensures CpuTotal(l, k) == CpuSum(l[..k])
  {
    if k > 0 {
      CpuTotalIsSum(l, k - 1);
      assert l[..k][..k - 1] == l[..k - 1];
    }
  }

  /** The state of the scan: `p` jobs have settled, `cur` of them are behind
      the scan position. */
  ghost predicate Scanning(l: seq<Result>, ncpus: nat, missed: set<Result>, p: nat,
                           list: seq<Result>, cpusUsed: real, firstNonMt: nat, cur: nat) {
    && cur <= p <= |l| == |list| && list == Settled(l, p) && Passable(l, ncpus, missed, p)
    && cpusUsed == CpuTotal(list, cur)
    && firstNonMt == if cur <= |Mt(l[..p])| then |list| else |Mt(l[..p])|
  }

  lemma ScanEnds(l: seq<Result>, ncpus: nat, missed: set<Result>, p: nat,
                 list: seq<Result>, cpusUsed: real, firstNonMt: nat, cur: nat)
    requires NcpusOk(l) && Scanning(l, ncpus, missed, p, list, cpusUsed, firstNonMt, cur)
    requires cur == |list| || cpusUsed >= ncpus as real || list[cur] in missed
    ensures list == Promoted(l, ncpus, missed)
  {
    SettledPrefix(l, p, cur);
    CpuTotalIsSum(list, cur);
    SettledNow(l, p);
    StopAt(l, ncpus, missed, 0, p);
  }

  lemma ScanGoesOn(l: seq<Result>, ncpus: nat, missed: set<Result>, p: nat,
                   list: seq<Result>, cpusUsed: real, firstNonMt: nat, cur: nat, total: real)
    requires NcpusOk(l) && Scanning(l, ncpus, missed, p, list, cpusUsed, firstNonMt, cur)
    requires cur < |list| && cpusUsed < ncpus as real && list[cur] !in missed
    requires total == cpusUsed + list[cur].avgNcpus
    ensures IsMt(list[cur]) && firstNonMt != |list| ==>
              && cur == p && firstNonMt <= cur
              && Scanning(l, ncpus, missed, p + 1, Moved(list, cur, firstNonMt), 0.0, |list|, 0)
    ensures !IsMt(list[cur]) && firstNonMt == |list| ==>
              Scanning(l, ncpus, missed, if cur == p then p + 1 else p, list, total, cur, cur + 1)
    ensures IsMt(list[cur]) == (firstNonMt == |list|) ==>
              Scanning(l, ncpus, missed, if cur == p then p + 1 else p, list, total, firstNonMt, cur + 1)
  {
    SettledPrefix(l, p, cur);
    CpuTotalIsSum(list, cur);
    if cur == p {
      SettledNext(l, p);
      PassableNext(l, ncpus, missed, p);
    }
  }

  /** One turn of the scan: promote a multi-thread job and start over, or go on. */
  method ScanTurn(ghost l: seq<Result>, ncpus: nat, missed: set<Result>, ghost p: nat,
                  list: seq<Result>, cpusUsed: real, firstNonMt: nat, cur: nat)
      returns (list': seq<Result>, cpusUsed': real, firstNonMt': nat, cur': nat)
    requires NcpusOk(l) && Scanning(l, ncpus, missed, p, list, cpusUsed, firstNonMt, cur)
    requires cur < |list| && cpusUsed < ncpus as real && list[cur] !in missed
    ensures Scanning(l, ncpus, missed, if cur == p then p + 1 else p, list', cpusUsed', firstNonMt', cur')
    ensures cur' == cur + 1 || cur == p
  {
    var rp := list[cur];
    var total := cpusUsed + rp.avgNcpus;
    ScanGoesOn(l, ncpus, missed, p, list, cpusUsed, firstNonMt, cur, total);
    if IsMt(rp) {
      if firstNonMt != |list| {
        return Moved(list, cur, firstNonMt), 0.0, |list|, 0;
      }
      return list, total, firstNonMt, cur + 1;
    }
    return list, total, if firstNonMt == |list| then cur else firstNonMt, cur + 1;
  }

  /** `promote_multi_thread_jobs`: the scan in place, restarting after each promotion. */
  method PromoteMultiThreadJobs(jobs: seq<Result>, ncpus: nat, missed: set<Result>) returns (list: seq<Result>)
    requires NcpusOk(jobs)
    ensures list == Promoted(jobs, ncpus, missed)
  {
    list := jobs;
    var cpusUsed := 0.0;
    var firstNonMt: nat, cur: nat := |list|, 0;
    ghost var p: nat := 0;
    while cur < |list| && cpusUsed < ncpus as real && list[cur] !in missed
      invariant Scanning(jobs, ncpus, missed, p, list, cpusUsed, firstNonMt, cur)
      decreases |jobs| - p, |jobs| - cur
    {
      ghost var next := if cur == p then p + 1 else p;
      list, cpusUsed, firstNonMt, cur := ScanTurn(jobs, ncpus, missed, p, list, cpusUsed, firstNonMt, cur);
      p := next;
    }
    ScanEnds(jobs, ncpus, missed, p, list, cpusUsed, firstNonMt, cur);
  }

  lemma SettledNow(l: seq<Result>, p: nat)
    requires p <= |l|
    ensures p < |l| ==> |Settled(l, p)| == |l| && Settled(l, p)[p] == l[p]
  {
    PartitionFacts(l[..p]);
  }

  lemma SettledPrefix(l: seq<Result>, p: nat, cur: nat)
    requires cur <= p <= |l| && NcpusOk(l)
    ensures |Settled(l, p)| == |l|
    ensures CpuSum(Settled(l, p)[..cur]) <= CpuSum(l[..p])
    ensures cur == p ==> CpuSum(Settled(l, p)[..cur]) == CpuSum(l[..p])
    ensures cur < p ==> (IsMt(Settled(l, p)[cur]) <==> cur < |Mt(l[..p])|) && Settled(l, p)[cur] in l[..p]
  {
    PartitionFacts(l[..p]);
    var s := Mt(l[..p]) + NonMt(l[..p]);
    assert Settled(l, p)[..cur] == s[..cur] && multiset(s) == multiset(l[..p]);
    forall r | r in s ensures r in l[..p] {
      assert r in multiset(s);
    }
    CpuSumPartition(l[..p]);
    CpuSumPrefix(s, cur);
    assert cur == p ==> s[..cur] == s;
    assert cur < p ==> Settled(l, p)[cur] == s[cur];
  }

  lemma {:induction false} StopAt(l: seq<Result>, ncpus: nat, missed: set<Result>, m: nat, p: nat)
    requires m <= p <= |l| && Passable(l, ncpus, missed, p)
    requires p == |l| || l[p] in missed || CpuSum(l[..p]) >= ncpus as real
    ensures Stop(l, ncpus, missed, m) == p
    decreases p - m
  {
    if m < p {
      StopAt(l, ncpus, missed, m + 1, p);
    }
  }

  // ---- what the promotion guarantees ------------------------------------

  lemma {:induction false} PartitionConcat(a: seq<Result>, b: seq<Result>)
    ensures Mt(a + b) == Mt(a) + Mt(b) && NonMt(a + b) == NonMt(a) + NonMt(b)
    decreases |b|
  {
    if b == [] {
      assert a + b == a;
    } else {
      assert (a + b)[..|a + b| - 1] == a + b[..|b| - 1];
      PartitionConcat(a, b[..|b| - 1]);
    }
  }

  lemma {:induction false} PartitionOfUniform(l: seq<Result>, mt: bool)
    requires forall r :: r in l ==> IsMt(r) == mt
    ensures Mt(l) == if mt then l else []
    ensures NonMt(l) == if mt then [] else l
  {
    if l != [] {
      var n := |l| - 1;
      assert l[n] in l;
      PartitionOfUniform(l[..n], mt);
      assert l == l[..n] + [l[n]];
    }
  }

  lemma SettledMembers(front: seq<Result>, rest: seq<Result>)
    ensures multiset(Mt(front) + NonMt(front) + rest) == multiset(front + rest)
  {
    PartitionFacts(front);
  }

  lemma SettledPartition(front: seq<Result>, rest: seq<Result>)
    ensures Mt(Mt(front) + NonMt(front) + rest) == Mt(front + rest)
    ensures NonMt(Mt(front) + NonMt(front) + rest) == NonMt(front + rest)
  {
    hide Mt, NonMt, IsMt;
    PartitionFacts(front);
    PartitionOfUniform(Mt(front), true);
    PartitionOfUniform(NonMt(front), false);
    PartitionConcat(Mt(front), NonMt(front));
    PartitionConcat(Mt(front) + NonMt(front), rest);
    PartitionConcat(front, rest);
    assert Mt(front) + [] == Mt(front) && [] + NonMt(front) == NonMt(front);
  }

  /** No job is lost or added, and among themselves the multi-thread jobs and
      the other jobs keep their order. */
  lemma PromotionKeepsJobs(l: seq<Result>, ncpus: nat, missed: set<Result>)
    ensures multiset(Promoted(l, ncpus, missed)) == multiset(l)
    ensures Mt(Promoted(l, ncpus, missed)) == Mt(l) && NonMt(Promoted(l, ncpus, missed)) == NonMt(l)
  {
    var s := Stop(l, ncpus, missed, 0);
    assert l == l[..s] + l[s..];
    SettledMembers(l[..s], l[s..]);
    SettledPartition(l[..s], l[s..]);
  }

  /** Nothing at or past a deadline-miss job moves. */
  lemma PromotionStopsAtMiss(l: seq<Result>, ncpus: nat, missed: set<Result>, k: nat)
    requires k < |l| && l[k] in missed
    ensures Promoted(l, ncpus, missed)[k..] == l[k..]
  {
    var s := Stop(l, ncpus, missed, 0);
    assert Passable(l, ncpus, missed, s);
    assert s <= k;
    PartitionFacts(l[..s]);
    assert Promoted(l, ncpus, missed)[s..] == l[s..];
  }

  lemma MtIs(r: Result)
    ensures IsMt(r) <==> r.avgNcpus > 1.0
  {
  }

  /** Nor does anything move that comes after jobs that use up the CPUs. */
  lemma PromotionStopsWhenFull(l: seq<Result>, ncpus: nat, missed: set<Result>, k: nat)
    requires k < |l| && CpuSum(l[..k]) >= ncpus as real
    ensures Promoted(l, ncpus, missed)[k..] == l[k..]
  {
    var s := Stop(l, ncpus, missed, 0);
    assert Passable(l, ncpus, missed, s);
    assert s <= k;
    PartitionFacts(l[..s]);
    assert Promoted(l, ncpus, missed)[s..] == l[s..];
  }

  /** Among the jobs in front, the multi-thread ones come first. */
  lemma MtComesFirst(l: seq<Result>, s: nat, i: nat, j: nat)
    requires s <= |l| && i < j < |l| && !IsMt(Settled(l, s)[i]) && IsMt(Settled(l, s)[j])
    ensures s <= j
  {
    PartitionFacts(l[..s]);
  }

  lemma SettledCpuSum(l: seq<Result>, s: nat, j: nat)
    requires NcpusOk(l) && s <= j <= |l|
    ensures CpuSum(l[..s]) <= CpuSum(Settled(l, s)[..j])
  {
    hide CpuSum, Mt, NonMt;
    var q := Settled(l, s);
    PartitionMembers(l[..s]);
    CpuSumPartition(l[..s]);
    assert q[..j][..s] == Mt(l[..s]) + NonMt(l[..s]);
    assert l == l[..s] + l[s..];
    SettledMembers(l[..s], l[s..]);
    forall r | r in q[..j] ensures r in l {
      assert r in multiset(q);
    }
    CpuSumPrefix(q[..j], s);
  }

  /** A multi-thread job stays behind another one only when a deadline-miss job
      is at or before it, or the jobs ahead of it use up the CPUs. */
  lemma PromotionIsComplete(l: seq<Result>, ncpus: nat, missed: set<Result>, i: nat, j: nat)
    requires NcpusOk(l) && i < j < |l|
    requires Promoted(l, ncpus, missed)[i].avgNcpus <= 1.0 && Promoted(l, ncpus, missed)[j].avgNcpus > 1.0
    ensures (exists k :: 0 <= k <= j && Promoted(l, ncpus, missed)[k] in missed)
            || CpuSum(Promoted(l, ncpus, missed)[..j]) >= ncpus as real
  {
    var s := Stop(l, ncpus, missed, 0);
    MtIs(Promoted(l, ncpus, missed)[i]);
    MtIs(Promoted(l, ncpus, missed)[j]);
    hide Mt, NonMt, IsMt, CpuSum, Settled;
    MtComesFirst(l, s, i, j);
    SettledNow(l, s);
    SettledCpuSum(l, s, j);
  }

  // ---- order of importance ----------------------------------------------

  /** What `more_important` reads; `address` stands for the job's pointer. */
  datatype Key = Key(edf: bool, coproc: bool, unfinished: bool, seqno: nat, address: nat)

  function KeyOf(r: Result): Key
    reads r`edfScheduled, r`seqno, r`unfinishedTimeSlice
  {
    Key(r.edfScheduled, r.UsesCoprocs(), r.unfinishedTimeSlice, r.seqno, r.id)
  }

  predicate MoreImportant(k0: Key, k1: Key) {
    if k0.edf != k1.edf then k0.edf
    else if k0.coproc != k1.coproc then k0.coproc
    else if k0.unfinished != k1.unfinished then k0.unfinished
    else if k0.seqno != k1.seqno then k0.seqno < k1.seqno
    else k0.address < k1.address
  }

  /** `std::sort` needs a strict weak order; this one is even total, so that
      the sorted list does not depend on the sorting algorithm. */
  lemma ImportanceIsStrictTotalOrder(a: Key, b: Key, c: Key)
    ensures !MoreImportant(a, a)
    ensures MoreImportant(a, b) && MoreImportant(b, c) ==> MoreImportant(a, c)
    ensures a == b || MoreImportant(a, b) || MoreImportant(b, a)
    ensures !(MoreImportant(a, b) && MoreImportant(b, a))
  {
  }

  ghost predicate Sorted(keys: seq<Key>) {
    forall i, j :: 0 <= i < j < |keys| ==> MoreImportant(keys[i], keys[j])
  }

  lemma HeadIsFirst(a: seq<Key>, x: Key)
    requires Sorted(a) && x in multiset(a)
    ensures x == a[0] || MoreImportant(a[0], x)
  {
    var i :| 0 <= i < |a| && a[i] == x;
  }

  lemma SortedTail(a: seq<Key>)
    requires Sorted(a) && a != []
    ensures Sorted(a[1..]) && multiset(a[1..]) == multiset(a) - multiset{a[0]}
  {
    assert a == [a[0]] + a[1..];
  }

  /** There is only one sorted arrangement of a set of jobs. */
  lemma {:induction false} SortedIsUnique(a: seq<Key>, b: seq<Key>)
    requires Sorted(a) && Sorted(b) && multiset(a) == multiset(b)
    ensures a == b
    decreases |a|
  {
    assert |a| == |multiset(a)| == |multiset(b)| == |b|;
    hide MoreImportant, Sorted;
    if a != [] {
      assert a[0] in multiset(b) && b[0] in multiset(a);
      HeadIsFirst(a, b[0]);
      HeadIsFirst(b, a[0]);
      ImportanceIsStrictTotalOrder(a[0], b[0], a[0]);
      SortedTail(a);
      SortedTail(b);
      SortedIsUnique(a[1..], b[1..]);
      assert a == [a[0]] + a[1..] && b == [b[0]] + b[1..];
    }
  }

  function Keys(l: seq<Result>): (ks: seq<Key>)
    reads l`edfScheduled, l`seqno, l`unfinishedTimeSlice
    ensures |ks| == |l| && forall i :: 0 <= i < |ks| ==> ks[i] == KeyOf(l[i])
  {
    if l == [] then [] else Keys(l[..|l| - 1]) + [KeyOf(l[|l| - 1])]
  }

  ghost predicate DistinctIds(l: seq<Result>) {
    forall i, j :: 0 <= i < j < |l| ==> l[i].id != l[j].id
  }

  lemma InsertedInOrder(keys: seq<Key>, k: Key, i: nat)
    requires Sorted(keys) && i <= |keys|
    requires forall a :: 0 <= a < i ==> MoreImportant(keys[a], k)
    requires i < |keys| ==> MoreImportant(k, keys[i])
    ensures Sorted(keys[..i] + [k] + keys[i..])
  {
    var all := keys[..i] + [k] + keys[i..];
    forall a, b | 0 <= a < b < |all| ensures MoreImportant(all[a], all[b]) {
      if b == i {
        assert MoreImportant(keys[a], k);
      } else if a == i && b > i + 1 {
        ImportanceIsStrictTotalOrder(k, keys[i], keys[b - 1]);
      }
    }
  }

  lemma InsertedMembers(sorted: seq<Result>, rp: Result, i: nat)
    requires i <= |sorted|
    ensures multiset(sorted[..i] + [rp] + sorted[i..]) == multiset(sorted) + multiset{rp}
  {
    assert sorted == sorted[..i] + sorted[i..];
  }

  lemma {:induction false} KeysConcat(a: seq<Result>, b: seq<Result>)
    ensures Keys(a + b) == Keys(a) + Keys(b)
  {
    if b == [] {
      assert a + b == a;
    } else {
      hide KeyOf;
      var n := |b| - 1;
      KeysConcat(a, b[..n]);
      assert (a + b)[..|a| + n] == a + b[..n] && (a + b)[|a| + n] == b[n];
      assert Keys(a + b) == Keys(a + b[..n]) + [KeyOf(b[n])];
    }
  }

  lemma InsertedKeys(sorted: seq<Result>, rp: Result, i: nat)
    requires i <= |sorted|
    ensures Keys(sorted[..i] + [rp] + sorted[i..]) == Keys(sorted)[..i] + [KeyOf(rp)] + Keys(sorted)[i..]
  {
    hide *;
    KeysConcat(sorted[..i] + [rp], sorted[i..]);
    KeysConcat(sorted[..i], [rp]);
    KeysConcat(sorted[..i], sorted[i..]);
    assert sorted == sorted[..i] + sorted[i..];
    assert Keys([rp]) == [KeyOf(rp)];
  }

  method InsertJob(sorted: seq<Result>, rp: Result) returns (list: seq<Result>)
    requires Sorted(Keys(sorted)) && forall r :: r in sorted ==> r.id != rp.id
    ensures Sorted(Keys(list)) && multiset(list) == multiset(sorted) + multiset{rp}
  {
    hide MoreImportant, Keys, Sorted;
    var i := 0;
    while i < |sorted| && MoreImportant(KeyOf(sorted[i]), KeyOf(rp))
      invariant i <= |sorted| && forall k :: 0 <= k < i ==> MoreImportant(Keys(sorted)[k], KeyOf(rp))
    {
      i := i + 1;
    }
    list := sorted[..i] + [rp] + sorted[i..];
    if i < |sorted| {
      assert sorted[i] in sorted;
      ImportanceIsStrictTotalOrder(Keys(sorted)[i], KeyOf(rp), KeyOf(rp));
    }
    InsertedInOrder(Keys(sorted), KeyOf(rp), i);
    InsertedMembers(sorted, rp, i);
    InsertedKeys(sorted, rp, i);
  }

  lemma NextIsNew(jobs: seq<Result>, list: seq<Result>, n: nat)
    requires DistinctIds(jobs) && n < |jobs| && multiset(list) == multiset(jobs[..n])
    ensures forall r :: r in list ==> r.id != jobs[n].id
  {
    forall r | r in list ensures r.id != jobs[n].id {
      assert r in multiset(jobs[..n]);
    }
  }

  lemma OneMore(jobs: seq<Result>, n: nat)
    requires n < |jobs|
    ensures multiset(jobs[..n + 1]) == multiset(jobs[..n]) + multiset{jobs[n]}
  {
    assert jobs[..n + 1] == jobs[..n] + [jobs[n]];
  }

  /** Jobs in deadline danger come first, then GPU jobs, then those in the middle of
      their time slice, then those that are earlier in the run list. */
  ghost predicate InOrderOfImportance(list: seq<Result>)
    reads list`edfScheduled, list`unfinishedTimeSlice, list`seqno
  {
    forall i, j :: 0 <= i < j < |list| ==>
      && (list[j].edfScheduled ==> list[i].edfScheduled)
      && (list[i].edfScheduled == list[j].edfScheduled ==>
           && (list[j].rscType != 0 ==> list[i].rscType != 0)
           && ((list[i].rscType == 0 <==> list[j].rscType == 0) ==>
                && (list[j].unfinishedTimeSlice ==> list[i].unfinishedTimeSlice)
                && (list[i].unfinishedTimeSlice == list[j].unfinishedTimeSlice ==> list[i].seqno <= list[j].seqno)))
  }

  lemma SortedIsInOrder(list: seq<Result>)
    requires Sorted(Keys(list))
    ensures InOrderOfImportance(list)
  {
    var keys := Keys(list);
    forall i, j | 0 <= i < j < |list|
      ensures MoreImportant(keys[i], keys[j]) && keys[i] == KeyOf(list[i]) && keys[j] == KeyOf(list[j])
    {
    }
  }

  /** Stands for `std::sort`: any sorted permutation is this one. */
  method SortJobs(jobs: seq<Result>) returns (list: seq<Result>)
    requires DistinctIds(jobs)
    ensures Sorted(Keys(list)) && multiset(list) == multiset(jobs) && InOrderOfImportance(list)
  {
    list := [];
    assert Sorted(Keys(list));
    hide *;
    for n := 0 to |jobs|
      invariant Sorted(Keys(list)) && multiset(list) == multiset(jobs[..n])
    {
      NextIsNew(jobs, list, n);
      OneMore(jobs, n);
      list := InsertJob(list, jobs[n]);
    }
    assert jobs[..|jobs|] == jobs;
    SortedIsInOrder(list);
  }
}
