/** Which jobs of the final list may run: the CPU and memory limits of
    `enforce_run_list` (client/cpu_sched.cpp:1561-1649), on values. */
module Admission {

  /** What a job asks for: `cpus` is its `avg_ncpus`, `wss` its working set. */
  datatype Cost = Cost(gpu: bool, cpus: real, wss: real)

  /** CPUs in use, whether a multi-thread job is in, and the memory left. */
  datatype Level = Level(cpus: real, mt: bool, ram: real)

  datatype Outcome = Outcome(level: Level, admitted: seq<Cost>, skipped: seq<Cost>)

  /** The CPUs do not allow the job. */
  predicate NoCpu(l: Level, ncpus: nat, c: Cost) {
    || (l.cpus >= ncpus as real && (c.gpu ==> l.cpus + c.cpus > ncpus as real + 1.0))
    || (!c.gpu && (l.mt || c.cpus > 1.0) && l.cpus + c.cpus > ncpus as real)
  }

  predicate Skipped(l: Level, ncpus: nat, c: Cost) {
    NoCpu(l, ncpus, c) || c.wss > l.ram
  }

  function Charge(l: Level, c: Cost): Level {
    Level(l.cpus + c.cpus, l.mt || c.cpus > 1.0, l.ram - c.wss)
  }

  function Step(o: Outcome, ncpus: nat, c: Cost): Outcome {
    if Skipped(o.level, ncpus, c) then o.(skipped := o.skipped + [c])
    else Outcome(Charge(o.level, c), o.admitted + [c], o.skipped)
  }

  /** The admission loop over a list of jobs. */
  function Admit(l: Level, ncpus: nat, cs: seq<Cost>): Outcome {
    if cs == [] then Outcome(l, [], []) else Step(Admit(l, ncpus, cs[..|cs| - 1]), ncpus, cs[|cs| - 1])
  }

  function Cpus(cs: seq<Cost>): real {
    if cs == [] then 0.0 else Cpus(cs[..|cs| - 1]) + cs[|cs| - 1].cpus
  }

  function Ram(cs: seq<Cost>): real {
    if cs == [] then 0.0 else Ram(cs[..|cs| - 1]) + cs[|cs| - 1].wss
  }

  ghost predicate CostsOk(cs: seq<Cost>) {
    forall k :: 0 <= k < |cs| ==> cs[k].cpus >= 0.0 && cs[k].wss >= 0.0
  }

  /** No GPU job asks for more than `g` CPUs. */
  ghost predicate GpuCpusWithin(cs: seq<Cost>, g: real) {
    forall k :: 0 <= k < |cs| ==> cs[k].gpu ==> cs[k].cpus <= g
  }

  /** The level is exactly what the admitted jobs add up to. */
  lemma {:induction false} LevelIsSum(l: Level, ncpus: nat, cs: seq<Cost>)
    ensures var o := Admit(l, ncpus, cs);
            && o.level.cpus == l.cpus + Cpus(o.admitted) && o.level.ram == l.ram - Ram(o.admitted)
            && |o.admitted| + |o.skipped| == |cs|
    decreases |cs|
  {
    if cs != [] {
      LevelIsSum(l, ncpus, cs[..|cs| - 1]);
      var o := Admit(l, ncpus, cs[..|cs| - 1]);
      assert (o.admitted + [cs[|cs| - 1]])[..|o.admitted|] == o.admitted;
    }
  }

  lemma {:induction false} LevelBound(ncpus: nat, ram: real, cs: seq<Cost>, g: real)
    requires GpuCpusWithin(cs, g) && g >= 1.0
    ensures Admit(Level(0.0, false, ram), ncpus, cs).level.cpus <= ncpus as real + g
    decreases |cs|
  {
    if cs != [] {
      LevelBound(ncpus, ram, cs[..|cs| - 1], g);
    }
  }

  /** The CPU load of the admitted jobs passes the number of CPUs by at most
      one, if no GPU job asks for more than one CPU; in general by at most what
      a GPU job may ask for. */
  lemma CpuLoadIsBounded(ncpus: nat, ram: real, cs: seq<Cost>, g: real)
    requires GpuCpusWithin(cs, g) && g >= 1.0
    ensures Cpus(Admit(Level(0.0, false, ram), ncpus, cs).admitted) <= ncpus as real + g
  {
    LevelBound(ncpus, ram, cs, g);
    LevelIsSum(Level(0.0, false, ram), ncpus, cs);
  }

  /** A GPU job that is not checked against the number of CPUs, because a CPU is
      left, and that asks for more than that and one more (client/cpu_sched.cpp:1572-1574). */
  predicate Oversteps(l: Level, ncpus: nat, c: Cost) {
    c.gpu && l.cpus < ncpus as real && l.cpus + c.cpus > ncpus as real + 1.0 && c.wss <= l.ram
  }

  lemma StepOverstepsIff(o: Outcome, ncpus: nat, c: Cost)
    requires o.level.cpus <= ncpus as real + 1.0
    ensures Step(o, ncpus, c).level.cpus > ncpus as real + 1.0 <==> Oversteps(o.level, ncpus, c)
  {
  }

  /** The CPU load is at most `ncpus + 1` after each of the jobs. */
  ghost predicate LoadWithin(l: Level, ncpus: nat, cs: seq<Cost>) {
    Admit(l, ncpus, cs).level.cpus <= ncpus as real + 1.0 && (cs != [] ==> LoadWithin(l, ncpus, cs[..|cs| - 1]))
  }

  /** No job oversteps at the level at which it is offered. */
  ghost predicate NoneOversteps(l: Level, ncpus: nat, cs: seq<Cost>) {
    cs != [] ==>
      && NoneOversteps(l, ncpus, cs[..|cs| - 1])
      && !Oversteps(Admit(l, ncpus, cs[..|cs| - 1]).level, ncpus, cs[|cs| - 1])
  }

  /** The load stays within `ncpus + 1` exactly if no GPU job meets that guard. */
  lemma {:induction false} LoadWithinIff(l: Level, ncpus: nat, cs: seq<Cost>)
    requires l.cpus <= ncpus as real + 1.0
    ensures LoadWithin(l, ncpus, cs) <==> NoneOversteps(l, ncpus, cs)
  {
    if cs != [] {
      LoadWithinIff(l, ncpus, cs[..|cs| - 1]);
      if LoadWithin(l, ncpus, cs[..|cs| - 1]) {
        StepOverstepsIff(Admit(l, ncpus, cs[..|cs| - 1]), ncpus, cs[|cs| - 1]);
      }
    }
  }

  /** Such a job: the bound of one extra CPU does not hold for GPU jobs in general. */
  lemma GreedyGpuJob()
    ensures Cpus(Admit(Level(0.0, false, 1.0), 1, [Cost(true, 3.0, 0.0)]).admitted) > 1.0 + 1.0
  {
    var c := Cost(true, 3.0, 0.0);
    assert [c][..0] == [];
    assert Admit(Level(0.0, false, 1.0), 1, [c]).admitted == [c];
  }

  /** Once a multi-thread job is in, no CPU job is admitted past the number of
      CPUs, and a multi-thread CPU job never is. */
  lemma MultiThreadIsNotOvercommitted(l: Level, ncpus: nat, cs: seq<Cost>, k: nat)
    requires k < |cs| && !cs[k].gpu
    requires Admit(l, ncpus, cs[..k]).level.mt || cs[k].cpus > 1.0
    requires |Admit(l, ncpus, cs[..k + 1]).admitted| > |Admit(l, ncpus, cs[..k]).admitted|
    ensures Admit(l, ncpus, cs[..k + 1]).level.cpus <= ncpus as real
  {
    assert cs[..k + 1][..k] == cs[..k];
  }

  lemma {:induction false} RamBound(l: Level, ncpus: nat, cs: seq<Cost>)
    ensures var o := Admit(l, ncpus, cs); o.admitted != [] ==> o.level.ram >= 0.0
    decreases |cs|
  {
    if cs != [] {
      RamBound(l, ncpus, cs[..|cs| - 1]);
    }
  }

  /** The working sets of the admitted jobs fit the memory there was. */
  lemma WorkingSetsFit(l: Level, ncpus: nat, cs: seq<Cost>)
    ensures var o := Admit(l, ncpus, cs); o.admitted != [] ==> Ram(o.admitted) <= l.ram
  {
    RamBound(l, ncpus, cs);
    LevelIsSum(l, ncpus, cs);
  }

  // ---- who is admitted, in plain sums -----------------------------------

  /** A job is admitted exactly if its working set fits what is left and, for a GPU
      job, a CPU is left or the load stays within `ncpus + 1`; for a CPU job, a CPU
      is left and, if the job or an admitted one is multi-thread, the load stays
      within `ncpus`. */
  lemma AdmittedIff(ram: real, ncpus: nat, cs: seq<Cost>, k: nat)
    requires k < |cs|
    ensures var before := Admit(Level(0.0, false, ram), ncpus, cs[..k]).admitted;
            var after := Admit(Level(0.0, false, ram), ncpus, cs[..k + 1]).admitted;
            var cpus, c := Cpus(before), cs[k];
            after ==
              if c.wss <= ram - Ram(before)
                 && (if c.gpu then cpus < ncpus as real || cpus + c.cpus <= ncpus as real + 1.0
                     else
                       && cpus < ncpus as real
                       && (c.cpus > 1.0 || (exists m :: 0 <= m < |before| && before[m].cpus > 1.0) ==>
                             cpus + c.cpus <= ncpus as real))
              then before + [c] else before
  {
    assert cs[..k + 1][..k] == cs[..k];
    LevelIsSum(Level(0.0, false, ram), ncpus, cs[..k]);
    MultiThreadIsIn(Level(0.0, false, ram), ncpus, cs[..k]);
  }

  lemma {:induction false} MultiThreadIsIn(l: Level, ncpus: nat, cs: seq<Cost>)
    requires !l.mt
    ensures var o := Admit(l, ncpus, cs);
            o.level.mt <==> exists m :: 0 <= m < |o.admitted| && o.admitted[m].cpus > 1.0
    decreases |cs|
  {
    if cs != [] {
      MultiThreadIsIn(l, ncpus, cs[..|cs| - 1]);
      var o, c := Admit(l, ncpus, cs[..|cs| - 1]), cs[|cs| - 1];
      assert (o.admitted + [c])[|o.admitted|] == c;
      if m :| 0 <= m < |o.admitted| && o.admitted[m].cpus > 1.0 {
        assert (o.admitted + [c])[m].cpus > 1.0;
      }
    }
  }

  lemma {:induction false} AdmittedGrow(l: Level, ncpus: nat, cs: seq<Cost>, k: nat)
    requires k <= |cs| && CostsOk(cs)
    ensures Admit(l, ncpus, cs[..k]).level.cpus <= Admit(l, ncpus, cs).level.cpus
    ensures Admit(l, ncpus, cs[..k]).level.mt ==> Admit(l, ncpus, cs).level.mt
    ensures Admit(l, ncpus, cs).level.ram <= Admit(l, ncpus, cs[..k]).level.ram
    decreases |cs|
  {
    if k < |cs| {
      assert cs[..|cs| - 1][..k] == cs[..k];
      AdmittedGrow(l, ncpus, cs[..|cs| - 1], k);
    } else {
      assert cs[..k] == cs;
    }
  }

  /** No CPU is left idle: if a single-thread CPU job whose working set still fits at
      the end was skipped, and no admitted job is multi-thread, all CPUs are in use. */
  lemma NoCpuIsLeft(ram: real, ncpus: nat, cs: seq<Cost>, k: nat)
    requires CostsOk(cs) && k < |cs| && !cs[k].gpu && cs[k].cpus <= 1.0
    requires var o := Admit(Level(0.0, false, ram), ncpus, cs);
             && cs[k].wss <= ram - Ram(o.admitted)
             && forall m :: 0 <= m < |o.admitted| ==> o.admitted[m].cpus <= 1.0
    requires |Admit(Level(0.0, false, ram), ncpus, cs[..k + 1]).admitted| ==
             |Admit(Level(0.0, false, ram), ncpus, cs[..k]).admitted|
    ensures Cpus(Admit(Level(0.0, false, ram), ncpus, cs).admitted) >= ncpus as real
  {
    var l := Level(0.0, false, ram);
    AdmittedIff(ram, ncpus, cs, k);
    LevelIsSum(l, ncpus, cs);
    LevelIsSum(l, ncpus, cs[..k]);
    MultiThreadIsIn(l, ncpus, cs);
    MultiThreadIsIn(l, ncpus, cs[..k]);
    AdmittedGrow(l, ncpus, cs, k);
  }

  lemma SkippedStays(l: Level, l': Level, ncpus: nat, c: Cost)
    requires Skipped(l, ncpus, c) && l.cpus <= l'.cpus && (l.mt ==> l'.mt) && l'.ram <= l.ram
    ensures Skipped(l', ncpus, c)
  {
  }

  ghost predicate AllSkipped(o: Outcome, ncpus: nat) {
    forall k :: 0 <= k < |o.skipped| ==> Skipped(o.level, ncpus, o.skipped[k])
  }

  lemma SkippedStep(o: Outcome, ncpus: nat, c: Cost)
    requires AllSkipped(o, ncpus) && c.cpus >= 0.0 && c.wss >= 0.0
    ensures AllSkipped(Step(o, ncpus, c), ncpus)
  {
    forall k | 0 <= k < |o.skipped| ensures Skipped(Step(o, ncpus, c).level, ncpus, o.skipped[k]) {
      SkippedStays(o.level, Step(o, ncpus, c).level, ncpus, o.skipped[k]);
    }
  }

  /** Every skipped job would be skipped again at the end of the loop. */
  lemma {:induction false} SkippingIsFinal(l: Level, ncpus: nat, cs: seq<Cost>)
    requires CostsOk(cs)
    ensures AllSkipped(Admit(l, ncpus, cs), ncpus)
    decreases |cs|
  {
    if cs != [] {
      SkippingIsFinal(l, ncpus, cs[..|cs| - 1]);
      SkippedStep(Admit(l, ncpus, cs[..|cs| - 1]), ncpus, cs[|cs| - 1]);
    }
  }
}
