/** The client's records and the pointers between them, and what a garbage
    collection leaves, on values (client/client_state.cpp:1249-1515,
    client/check_state.cpp:92-176). */
module ObjectGraph {
  import opened ClientTypes
  import opened Lists

  // ---- the graph --------------------------------------------------------

  /** The lists, and the fields that decide what is kept: user and project
      files, acked results, sticky files that are not marked for deletion, and
      the transfers of files. */
  datatype Graph = Graph(
    projects: seq<Project>,
    apps: seq<App>,
    files: seq<FileInfo>,
    avps: seq<AppVersion>,
    wus: seq<Workunit>,
    results: seq<Result>,
    tasks: seq<ActiveTask>,
    pfxs: seq<PersFileXfer>,
    fxs: seq<FileXfer>,
    rootFiles: map<Project, seq<FileInfo>>,
    acked: set<Result>,
    sticky: set<FileInfo>,
    xferOf: map<FileInfo, PersFileXfer>,
    fxpOf: map<PersFileXfer, FileXfer>)

  ghost function RootRefs(projects: seq<Project>, rootFiles: map<Project, seq<FileInfo>>): multiset<FileInfo> {
    if projects == [] then multiset{}
    else
      var p := projects[|projects| - 1];
      RootRefs(projects[..|projects| - 1], rootFiles) + if p in rootFiles then multiset(rootFiles[p]) else multiset{}
  }

  ghost function OutputRefs(rs: seq<Result>): multiset<FileInfo> {
    if rs == [] then multiset{} else OutputRefs(rs[..|rs| - 1]) + multiset(rs[|rs| - 1].outputFiles)
  }

  ghost function InputRefs(ws: seq<Workunit>): multiset<FileInfo> {
    if ws == [] then multiset{} else InputRefs(ws[..|ws| - 1]) + multiset(ws[|ws| - 1].inputFiles)
  }

  ghost function AppRefs(vs: seq<AppVersion>): multiset<FileInfo> {
    if vs == [] then multiset{} else AppRefs(vs[..|vs| - 1]) + multiset(vs[|vs| - 1].appFiles)
  }

  /** Results that stay: not acked, or still with a task. */
  ghost function Live(g: Graph): set<Result> {
    set r | r in g.results && (r !in g.acked || exists t :: t in g.tasks && t.result == r)
  }

  ghost function KeptResults(g: Graph): seq<Result> {
    Filter(g.results, Live(g))
  }

  ghost function WusUsedBy(rs: seq<Result>): set<Workunit> {
    set r | r in rs :: r.wup
  }

  ghost function KeptWus(g: Graph): seq<Workunit> {
    Filter(g.wus, WusUsedBy(KeptResults(g)))
  }

  predicate Supersedes(b: AppVersion, a: AppVersion) {
    b.app == a.app && b.versionNum > a.versionNum && b.planClass == a.planClass && b.platform == a.platform
  }

  predicate Superseded(a: AppVersion, vs: seq<AppVersion>) {
    exists b :: b in vs && Supersedes(b, a)
  }

  ghost function KeptAvpSet(g: Graph): set<AppVersion> {
    set a | a in g.avps && ((exists r :: r in KeptResults(g) && r.avp == a) || !Superseded(a, g.avps))
  }

  ghost function KeptAvps(g: Graph): seq<AppVersion> {
    Filter(g.avps, KeptAvpSet(g))
  }

  /** All references to files, with multiplicity, after the unneeded records are gone. */
  ghost function Refs(g: Graph): multiset<FileInfo> {
    RootRefs(g.projects, g.rootFiles) + OutputRefs(KeptResults(g)) + InputRefs(KeptWus(g)) + AppRefs(KeptAvps(g))
      + multiset(g.sticky)
  }

  ghost function Used(g: Graph): set<FileInfo> {
    set f | f in g.files && f in Refs(g)
  }

  ghost function KeptPfxSet(g: Graph): set<PersFileXfer> {
    set x | x in g.pfxs && x.fip in Refs(g)
  }

  /** Transfers in progress that belong to dropped persistent transfers end. */
  ghost function KeptFxSet(g: Graph, kept: set<PersFileXfer>): set<FileXfer> {
    set y | y in g.fxs && !exists x :: x in g.pfxs && x !in kept && x in g.fxpOf && g.fxpOf[x] == y
  }

  /** What a garbage collection leaves. */
  ghost function Collected(g: Graph): Graph {
    var rs, files, pfxs := KeptResults(g), Filter(g.files, Used(g)), Filter(g.pfxs, KeptPfxSet(g));
    Graph(
      g.projects, g.apps, files, KeptAvps(g), KeptWus(g), rs, g.tasks, pfxs,
      Filter(g.fxs, KeptFxSet(g, KeptPfxSet(g))),
      g.rootFiles,
      set r | r in g.acked && r in rs,
      set f | f in g.sticky && f in files,
      map f | f in g.xferOf && f in files :: g.xferOf[f],
      map x | x in g.fxpOf && x in pfxs :: g.fxpOf[x])
  }

  // ---- the invariant ----------------------------------------------------

  ghost predicate FilesIn(fs: seq<FileInfo>, files: seq<FileInfo>) {
    forall f :: f in fs ==> f in files
  }

  ghost predicate CheckAppVersion(g: Graph, a: AppVersion) {
    a.app in g.apps && a.project in g.projects && FilesIn(a.appFiles, g.files)
  }

  ghost predicate CheckWorkunit(g: Graph, w: Workunit) {
    FilesIn(w.inputFiles, g.files) && w.project in g.projects && w.app in g.apps
  }

  ghost predicate CheckResult(g: Graph, r: Result) {
    FilesIn(r.outputFiles, g.files) && r.app in g.apps && r.wup in g.wus && r.project in g.projects
  }

  ghost predicate CheckActiveTask(g: Graph, t: ActiveTask) {
    t.result in g.results && t.wup in g.wus && t.appVersion in g.avps
  }

  ghost predicate CheckPersFileXfer(g: Graph, x: PersFileXfer) {
    (x in g.fxpOf ==> g.fxpOf[x] in g.fxs) && x.fip in g.files
  }

  ghost predicate CheckFileInfo(g: Graph, f: FileInfo) {
    (f in g.xferOf ==> g.xferOf[f] in g.pfxs) && f.project in g.projects
  }

  /** `check_all`: no record points at one that is not in its list. */
  ghost predicate CheckAll(g: Graph) {
    && (forall a :: a in g.apps ==> a.project in g.projects)
    && (forall f :: f in g.files ==> CheckFileInfo(g, f))
    && (forall a :: a in g.avps ==> CheckAppVersion(g, a))
    && (forall w :: w in g.wus ==> CheckWorkunit(g, w))
    && (forall r :: r in g.results ==> CheckResult(g, r))
    && (forall t :: t in g.tasks ==> CheckActiveTask(g, t))
    && (forall x :: x in g.pfxs ==> CheckPersFileXfer(g, x))
    && (forall y :: y in g.fxs ==> y.fip in g.files)
  }

  /** What else holds of the pointers: results have listed app versions, a task
      has its result's records, user and project files are listed, and
      transfers belong to the files and persistent transfers that point at them. */
  ghost predicate Linked(g: Graph) {
    && (forall r :: r in g.results ==> r.avp in g.avps)
    && (forall t :: t in g.tasks ==> t.wup == t.result.wup && t.appVersion == t.result.avp)
    && (forall p :: p in g.rootFiles ==> p in g.projects && FilesIn(g.rootFiles[p], g.files))
    && (forall f :: f in g.xferOf ==> f in g.files && g.xferOf[f].fip == f)
    && (forall x :: x in g.fxpOf ==> x in g.pfxs && g.fxpOf[x].fip == x.fip)
    && (forall x, x' :: x in g.fxpOf && x' in g.fxpOf && g.fxpOf[x] == g.fxpOf[x'] ==> x == x')
    && (forall y :: y in g.fxs ==> exists x :: x in g.fxpOf && g.fxpOf[x] == y)
    && (forall r :: r in g.acked ==> r in g.results) && (forall f :: f in g.sticky ==> f in g.files)
  }

  // ---- membership in what is left ---------------------------------------

  ghost predicate KeptAre(g: Graph) {
    && (forall r :: r in KeptResults(g) ==> r in Live(g)) && (forall r :: r in Live(g) ==> r in KeptResults(g))
    && (forall w :: w in KeptWus(g) ==> w in g.wus && exists r :: r in KeptResults(g) && r.wup == w)
    && (forall r :: r in KeptResults(g) && r.wup in g.wus ==> r.wup in KeptWus(g))
    && (forall a :: a in KeptAvps(g) ==> a in KeptAvpSet(g)) && (forall a :: a in KeptAvpSet(g) ==> a in KeptAvps(g))
  }

  lemma KeptMembers(g: Graph)
    ensures KeptAre(g)
  {
    FilterMembers(g.results, Live(g));
    FilterMembers(g.wus, WusUsedBy(KeptResults(g)));
    FilterMembers(g.avps, KeptAvpSet(g));
  }

  ghost predicate KeptXfersAre(g: Graph) {
    var h := Collected(g);
    && (forall f :: f in h.files ==> f in Used(g)) && (forall f :: f in Used(g) ==> f in h.files)
    && (forall x :: x in h.pfxs ==> x in KeptPfxSet(g)) && (forall x :: x in KeptPfxSet(g) ==> x in h.pfxs)
    && (forall y :: y in h.fxs ==> y in KeptFxSet(g, KeptPfxSet(g)))
       && (forall y :: y in KeptFxSet(g, KeptPfxSet(g)) ==> y in h.fxs)
  }

  lemma KeptXfers(g: Graph)
    ensures KeptXfersAre(g)
  {
    FilterMembers(g.files, Used(g));
    FilterMembers(g.pfxs, KeptPfxSet(g));
    FilterMembers(g.fxs, KeptFxSet(g, KeptPfxSet(g)));
  }

  ghost predicate OutputRefsAre(rs: seq<Result>) {
    && (forall f :: f in OutputRefs(rs) ==> exists r :: r in rs && f in r.outputFiles)
    && (forall r, f :: r in rs && f in r.outputFiles ==> f in OutputRefs(rs))
  }

  lemma {:induction false} OutputRefsMembers(rs: seq<Result>)
    ensures OutputRefsAre(rs)
  {
    if rs != [] {
      OutputRefsMembers(rs[..|rs| - 1]);
      assert rs == rs[..|rs| - 1] + [rs[|rs| - 1]];
    }
  }

  ghost predicate InputRefsAre(ws: seq<Workunit>) {
    && (forall f :: f in InputRefs(ws) ==> exists w :: w in ws && f in w.inputFiles)
    && (forall w, f :: w in ws && f in w.inputFiles ==> f in InputRefs(ws))
  }

  lemma {:induction false} InputRefsMembers(ws: seq<Workunit>)
    ensures InputRefsAre(ws)
  {
    if ws != [] {
      InputRefsMembers(ws[..|ws| - 1]);
      assert ws == ws[..|ws| - 1] + [ws[|ws| - 1]];
    }
  }

  ghost predicate AppRefsAre(vs: seq<AppVersion>) {
    && (forall f :: f in AppRefs(vs) ==> exists v :: v in vs && f in v.appFiles)
    && (forall v, f :: v in vs && f in v.appFiles ==> f in AppRefs(vs))
  }

  lemma {:induction false} AppRefsMembers(vs: seq<AppVersion>)
    ensures AppRefsAre(vs)
  {
    if vs != [] {
      AppRefsMembers(vs[..|vs| - 1]);
      assert vs == vs[..|vs| - 1] + [vs[|vs| - 1]];
    }
  }

  ghost predicate RootRefsAre(projects: seq<Project>, rootFiles: map<Project, seq<FileInfo>>) {
    && (forall f :: f in RootRefs(projects, rootFiles) ==>
         exists p :: p in projects && p in rootFiles && f in rootFiles[p])
    && (forall p, f :: p in projects && p in rootFiles && f in rootFiles[p] ==> f in RootRefs(projects, rootFiles))
  }

  lemma {:induction false} RootRefsMembers(projects: seq<Project>, rootFiles: map<Project, seq<FileInfo>>)
    ensures RootRefsAre(projects, rootFiles)
  {
    if projects != [] {
      RootRefsMembers(projects[..|projects| - 1], rootFiles);
      assert projects == projects[..|projects| - 1] + [projects[|projects| - 1]];
    }
  }

  /** The surviving files are those reachable from what stays. */
  lemma UsedIsReachable(g: Graph, f: FileInfo)
    requires f in g.files
    ensures f in Collected(g).files <==>
              || (exists p :: p in g.projects && p in g.rootFiles && f in g.rootFiles[p])
              || (exists r :: r in KeptResults(g) && f in r.outputFiles)
              || (exists w :: w in KeptWus(g) && f in w.inputFiles)
              || (exists a :: a in KeptAvps(g) && f in a.appFiles)
              || f in g.sticky
  {
    KeptXfers(g);
    RootRefsMembers(g.projects, g.rootFiles);
    OutputRefsMembers(KeptResults(g));
    InputRefsMembers(KeptWus(g));
    AppRefsMembers(KeptAvps(g));
  }

  // ---- who stays, in terms of the records -------------------------------

  lemma ResultStaysIff(g: Graph, r: Result)
    requires r in g.results
    ensures r in Collected(g).results <==> r !in g.acked || exists t :: t in g.tasks && t.result == r
  {
    KeptMembers(g);
  }

  lemma WorkunitStaysIff(g: Graph, w: Workunit)
    requires w in g.wus
    ensures w in Collected(g).wus <==> exists r :: r in Collected(g).results && r.wup == w
  {
    KeptMembers(g);
  }

  /** A version stays exactly if a result that stays uses it or no newer one of its
      app, plan class and platform is listed. */
  lemma VersionStaysIff(g: Graph, a: AppVersion)
    requires a in g.avps
    ensures a in Collected(g).avps <==>
              || (exists r :: r in Collected(g).results && r.avp == a)
              || forall b :: b in g.avps && b.app == a.app && b.planClass == a.planClass && b.platform == a.platform ==>
                   b.versionNum <= a.versionNum
  {
    KeptMembers(g);
    assert a in KeptAvpSet(g) <==> (exists r :: r in KeptResults(g) && r.avp == a) || !Superseded(a, g.avps);
    if Superseded(a, g.avps) {
      var b :| b in g.avps && Supersedes(b, a);
    } else if b :| b in g.avps && b.app == a.app && b.planClass == a.planClass && b.platform == a.platform
                   && b.versionNum > a.versionNum {
      assert Supersedes(b, a);
    }
  }

  /** A transfer stays exactly if its file does. */
  lemma XferStaysIff(g: Graph, x: PersFileXfer)
    requires CheckAll(g) && x in g.pfxs
    ensures x in Collected(g).pfxs <==> x.fip in Collected(g).files
  {
    KeptXfers(g);
    assert CheckPersFileXfer(g, x);
  }

  lemma FileXferStaysIff(g: Graph, y: FileXfer)
    requires CheckAll(g) && Linked(g) && y in g.fxs
    ensures y in Collected(g).fxs <==> y.fip in Collected(g).files
  {
    KeptXfers(g);
    var x :| x in g.fxpOf && g.fxpOf[x] == y;
    assert CheckPersFileXfer(g, x) && x in g.pfxs;
    XferStaysIff(g, x);
    assert y in KeptFxSet(g, KeptPfxSet(g)) <==> x in KeptPfxSet(g);
  }

  // ---- collection keeps the invariant -----------------------------------

  /** A task's result is never deleted, and so neither are its records. */
  lemma TasksKeepTheirRecords(g: Graph, t: ActiveTask)
    requires CheckAll(g) && Linked(g) && t in g.tasks
    ensures t.result in KeptResults(g) && t.wup in KeptWus(g) && t.appVersion in KeptAvps(g)
  {
    KeptMembers(g);
    assert CheckActiveTask(g, t);
    assert t.result in Live(g);
    assert t.wup == t.result.wup && t.result.wup in g.wus;
    assert t.appVersion in KeptAvpSet(g);
  }

  lemma RecordsStayChecked(g: Graph)
    requires CheckAll(g) && Linked(g)
    ensures forall r :: r in KeptResults(g) ==> CheckResult(Collected(g), r) && r.avp in KeptAvps(g)
    ensures forall w :: w in KeptWus(g) ==> CheckWorkunit(Collected(g), w)
    ensures forall a :: a in KeptAvps(g) ==> CheckAppVersion(Collected(g), a)
  {
    var h := Collected(g);
    KeptMembers(g);
    forall r | r in KeptResults(g) ensures CheckResult(h, r) && r.avp in KeptAvps(g) {
      assert CheckResult(g, r);
      assert r.avp in KeptAvpSet(g);
      forall f | f in r.outputFiles ensures f in h.files {
        UsedIsReachable(g, f);
      }
    }
    forall w | w in KeptWus(g) ensures CheckWorkunit(h, w) {
      assert CheckWorkunit(g, w);
      forall f | f in w.inputFiles ensures f in h.files {
        UsedIsReachable(g, f);
      }
    }
    forall a | a in KeptAvps(g) ensures CheckAppVersion(h, a) {
      assert CheckAppVersion(g, a);
      forall f | f in a.appFiles ensures f in h.files {
        UsedIsReachable(g, f);
      }
    }
  }

  lemma OwnerStays(g: Graph, y: FileXfer) returns (x: PersFileXfer)
    requires CheckAll(g) && Linked(g) && y in Collected(g).fxs
    ensures x in g.fxpOf && g.fxpOf[x] == y && x in KeptPfxSet(g)
  {
    FilterMembers(g.fxs, KeptFxSet(g, KeptPfxSet(g)));
    assert y in KeptFxSet(g, KeptPfxSet(g)) && y in g.fxs;
    x :| x in g.fxpOf && g.fxpOf[x] == y;
    assert x in g.pfxs;
  }

  /** A kept file keeps its transfer, and a kept transfer what it transfers. */
  lemma XfersStayChecked(g: Graph)
    requires CheckAll(g) && Linked(g)
    ensures forall f :: f in Collected(g).files ==> CheckFileInfo(Collected(g), f)
    ensures forall x :: x in Collected(g).pfxs ==> CheckPersFileXfer(Collected(g), x)
    ensures forall y :: y in Collected(g).fxs ==> y.fip in Collected(g).files
  {
    var h := Collected(g);
    KeptXfers(g);
    forall f | f in h.files ensures CheckFileInfo(h, f) {
      assert CheckFileInfo(g, f);
      assert f in g.xferOf ==> g.xferOf[f] in KeptPfxSet(g);
    }
    forall x | x in h.pfxs ensures CheckPersFileXfer(h, x) {
      assert CheckPersFileXfer(g, x);
    }
    forall y | y in h.fxs ensures y.fip in h.files {
      var x := OwnerStays(g, y);
      assert CheckPersFileXfer(g, x);
    }
  }

  lemma LinksStay(g: Graph)
    requires CheckAll(g) && Linked(g)
    ensures Linked(Collected(g))
  {
    var h := Collected(g);
    KeptMembers(g);
    KeptXfers(g);
    RecordsStayChecked(g);
    forall p | p in g.rootFiles ensures FilesIn(g.rootFiles[p], h.files) {
      assert FilesIn(g.rootFiles[p], g.files) && p in g.projects;
      forall f | f in g.rootFiles[p] ensures f in h.files {
        UsedIsReachable(g, f);
      }
    }
    forall y | y in h.fxs ensures exists x :: x in h.fxpOf && h.fxpOf[x] == y {
      var x := OwnerStays(g, y);
      assert x in h.fxpOf && h.fxpOf[x] == y;
    }
  }

  /** A collection keeps `check_all`: nothing left points at a deleted record. */
  lemma CollectionIsSafe(g: Graph)
    requires CheckAll(g) && Linked(g)
    ensures CheckAll(Collected(g)) && Linked(Collected(g))
  {
    KeptMembers(g);
    RecordsStayChecked(g);
    XfersStayChecked(g);
    LinksStay(g);
    forall t | t in g.tasks ensures CheckActiveTask(Collected(g), t) {
      TasksKeepTheirRecords(g, t);
    }
  }
}
