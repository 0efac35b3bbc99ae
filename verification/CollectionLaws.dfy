/** Laws of the garbage collection: doing it twice changes nothing more, and
    projects do not affect each other. */
module CollectionLaws {
  import opened ClientTypes
  import opened Lists
  import opened ObjectGraph

  lemma KeptAgain(g: Graph)
    ensures KeptResults(Collected(g)) == KeptResults(g)
    ensures KeptWus(Collected(g)) == KeptWus(g)
    ensures KeptAvps(Collected(g)) == KeptAvps(g)
  {
    var h := Collected(g);
    KeptMembers(g);
    FilterAll(h.results, Live(h));
    FilterAll(h.wus, WusUsedBy(KeptResults(h)));
    forall a | a in h.avps ensures a in KeptAvpSet(h) {
      assert a in KeptAvpSet(g);
    }
    FilterAll(h.avps, KeptAvpSet(h));
  }

  lemma StickyFilesStay(g: Graph)
    requires forall f :: f in g.sticky ==> f in g.files
    ensures Collected(g).sticky == g.sticky
  {
    forall f | f in g.sticky ensures f in Collected(g).files {
      UsedIsReachable(g, f);
    }
  }

  lemma FilesAgain(g: Graph)
    requires forall f :: f in g.sticky ==> f in g.files
    ensures Refs(Collected(g)) == Refs(g) && Collected(Collected(g)).files == Collected(g).files
  {
    var h := Collected(g);
    KeptAgain(g);
    StickyFilesStay(g);
    assert Refs(h) == Refs(g);
    FilterMembers(g.files, Used(g));
    FilterAll(h.files, Used(h));
  }

  lemma XfersAgain(g: Graph)
    requires forall f :: f in g.sticky ==> f in g.files
    ensures Collected(Collected(g)).pfxs == Collected(g).pfxs && Collected(Collected(g)).fxs == Collected(g).fxs
  {
    var h := Collected(g);
    FilesAgain(g);
    FilterMembers(g.pfxs, KeptPfxSet(g));
    FilterAll(h.pfxs, KeptPfxSet(h));
    assert forall x :: x in h.pfxs ==> x in KeptPfxSet(h);
    FilterAll(h.fxs, KeptFxSet(h, KeptPfxSet(h)));
  }

  /** A second collection right after the first deletes nothing. */
  lemma CollectionIsIdempotent(g: Graph)
    requires forall f :: f in g.sticky ==> f in g.files
    ensures Collected(Collected(g)) == Collected(g)
  {
    var h := Collected(g);
    var k := Collected(h);
    KeptAgain(g);
    FilesAgain(g);
    XfersAgain(g);
    assert k.acked == h.acked && k.sticky == h.sticky;
    assert k.xferOf == h.xferOf && k.fxpOf == h.fxpOf;
  }

  // ---- one project at a time --------------------------------------------

  /** Links stay inside a project. */
  ghost predicate Local(g: Graph) {
    && (forall r :: r in g.results ==>
          && r.wup.project == r.project && r.avp.project == r.project && r.app.project == r.project
          && forall f :: f in r.outputFiles ==> f.project == r.project)
    && (forall w :: w in g.wus ==> w.app.project == w.project && forall f :: f in w.inputFiles ==>
         f.project == w.project)
    && (forall a :: a in g.avps ==> a.app.project == a.project && forall f :: f in a.appFiles ==>
         f.project == a.project)
    && (forall p, f :: p in g.rootFiles && f in g.rootFiles[p] ==> f.project == p)
  }

  ghost function AppsOf(g: Graph, q: Project): set<App> {
    set a | a in g.apps && a.project == q
  }

  ghost function FilesOf(g: Graph, q: Project): set<FileInfo> {
    set f | f in g.files && f.project == q
  }

  ghost function AvpsOf(g: Graph, q: Project): set<AppVersion> {
    set a | a in g.avps && a.project == q
  }

  ghost function WusOf(g: Graph, q: Project): set<Workunit> {
    set w | w in g.wus && w.project == q
  }

  ghost function ResultsOf(g: Graph, q: Project): set<Result> {
    set r | r in g.results && r.project == q
  }

  ghost function TasksOf(g: Graph, q: Project): set<ActiveTask> {
    set t | t in g.tasks && t.result.project == q
  }

  ghost function PfxsOf(g: Graph, q: Project): set<PersFileXfer> {
    set x | x in g.pfxs && x.fip.project == q
  }

  ghost function FxsOf(g: Graph, q: Project): set<FileXfer> {
    set y | y in g.fxs && y.fip.project == q
  }

  /** The part of the graph that belongs to a project. */
  ghost function Part(g: Graph, q: Project): Graph {
    Graph(
      Filter(g.projects, {q}),
      Filter(g.apps, AppsOf(g, q)),
      Filter(g.files, FilesOf(g, q)),
      Filter(g.avps, AvpsOf(g, q)),
      Filter(g.wus, WusOf(g, q)),
      Filter(g.results, ResultsOf(g, q)),
      Filter(g.tasks, TasksOf(g, q)),
      Filter(g.pfxs, PfxsOf(g, q)),
      Filter(g.fxs, FxsOf(g, q)),
      map p | p in g.rootFiles && p == q :: g.rootFiles[p],
      set r | r in g.acked && r.project == q,
      set f | f in g.sticky && f.project == q,
      map f | f in g.xferOf && f.project == q :: g.xferOf[f],
      map x | x in g.fxpOf && x.fip.project == q :: g.fxpOf[x])
  }

  ghost predicate PartIs(g: Graph, q: Project) {
    var h := Part(g, q);
    && Members(h.results, g.results, ResultsOf(g, q)) && Members(h.wus, g.wus, WusOf(g, q))
    && Members(h.avps, g.avps, AvpsOf(g, q)) && Members(h.tasks, g.tasks, TasksOf(g, q))
    && Members(h.files, g.files, FilesOf(g, q)) && Members(h.pfxs, g.pfxs, PfxsOf(g, q))
       && Members(h.fxs, g.fxs, FxsOf(g, q))
  }

  lemma PartMembers(g: Graph, q: Project)
    ensures PartIs(g, q)
  {
    FilterMembers(g.results, ResultsOf(g, q));
    FilterMembers(g.wus, WusOf(g, q));
    FilterMembers(g.avps, AvpsOf(g, q));
    FilterMembers(g.tasks, TasksOf(g, q));
    FilterMembers(g.files, FilesOf(g, q));
    FilterMembers(g.pfxs, PfxsOf(g, q));
    FilterMembers(g.fxs, FxsOf(g, q));
  }

  lemma LiveHere(g: Graph, q: Project, r: Result)
    requires r in ResultsOf(g, q)
    ensures r in Live(Part(g, q)) <==> r in Live(g)
  {
    PartMembers(g, q);
    if exists t :: t in g.tasks && t.result == r {
      var t :| t in g.tasks && t.result == r;
      assert t in Part(g, q).tasks;
    }
  }

  lemma PartResults(g: Graph, q: Project)
    ensures KeptResults(Part(g, q)) == Part(Collected(g), q).results
  {
    var mine := ResultsOf(g, q);
    forall r | r in g.results ensures (r in mine && r in Live(Part(g, q))) <==> (r in mine && r in Live(g)) {
      if r in mine {
        LiveHere(g, q, r);
      }
    }
    FilterBoth(g.results, mine, Live(Part(g, q)), mine * Live(g));
    KeptMembers(g);
    FilterBoth(g.results, Live(g), ResultsOf(Collected(g), q), mine * Live(g));
  }

  lemma PartWus(g: Graph, q: Project)
    requires Local(g)
    ensures KeptWus(Part(g, q)) == Part(Collected(g), q).wus
  {
    var h := Part(g, q);
    var mine, used, usedHere := WusOf(g, q), WusUsedBy(KeptResults(g)), WusUsedBy(KeptResults(h));
    KeptMembers(g);
    PartResults(g, q);
    PartMembers(Collected(g), q);
    forall w | w in g.wus ensures w in mine * used <==> w in mine && w in usedHere {
      if w in mine * used {
        var r :| r in KeptResults(g) && r.wup == w;
        assert r in KeptResults(h);
      }
    }
    FilterBoth(g.wus, mine, usedHere, mine * used);
    FilterBoth(g.wus, used, WusOf(Collected(g), q), mine * used);
  }

  lemma PartAvps(g: Graph, q: Project)
    requires Local(g)
    ensures KeptAvps(Part(g, q)) == Part(Collected(g), q).avps
  {
    var h := Part(g, q);
    var mine := AvpsOf(g, q);
    KeptMembers(g);
    PartResults(g, q);
    PartMembers(g, q);
    PartMembers(Collected(g), q);
    forall a | a in g.avps && a in mine ensures a in KeptAvpSet(h) <==> a in KeptAvpSet(g) {
      SupersededHere(g, q, a);
      if r :| r in KeptResults(g) && r.avp == a {
        assert r in KeptResults(h);
      }
    }
    FilterBoth(g.avps, mine, KeptAvpSet(h), mine * KeptAvpSet(g));
    FilterBoth(g.avps, KeptAvpSet(g), AvpsOf(Collected(g), q), mine * KeptAvpSet(g));
  }

  /** Only versions of the same application supersede each other. */
  lemma SupersededHere(g: Graph, q: Project, a: AppVersion)
    requires Local(g) && a in AvpsOf(g, q)
    ensures Superseded(a, Part(g, q).avps) <==> Superseded(a, g.avps)
  {
    PartMembers(g, q);
    if Superseded(a, g.avps) {
      var b :| b in g.avps && Supersedes(b, a);
      assert b in Part(g, q).avps;
    }
  }

  /** A file of a project is used only by records of that project. */
  lemma UsedHere(g: Graph, q: Project, f: FileInfo)
    requires Local(g) && f in FilesOf(g, q)
    ensures f in Refs(Part(g, q)) <==> f in Refs(g)
  {
    var h := Part(g, q);
    PartMembers(g, q);
    PartMembers(Collected(g), q);
    PartResults(g, q);
    PartWus(g, q);
    PartAvps(g, q);
    KeptMembers(g);
    RefsOfKind(g, f);
    RefsOfKind(h, f);
    RootsHere(g, q, f);
    if r :| r in KeptResults(g) && f in r.outputFiles {
      assert r in KeptResults(h);
    }
    if w :| w in KeptWus(g) && f in w.inputFiles {
      assert w in KeptWus(h);
    }
    if a :| a in KeptAvps(g) && f in a.appFiles {
      assert a in KeptAvps(h);
    }
  }

  ghost predicate ByRoot(g: Graph, f: FileInfo) {
    exists p :: p in g.projects && p in g.rootFiles && f in g.rootFiles[p]
  }

  lemma RefsOfKind(g: Graph, f: FileInfo)
    ensures f in Refs(g) <==>
              || ByRoot(g, f)
              || (exists r :: r in KeptResults(g) && f in r.outputFiles)
              || (exists w :: w in KeptWus(g) && f in w.inputFiles)
              || (exists a :: a in KeptAvps(g) && f in a.appFiles)
              || f in g.sticky
  {
    RootRefsMembers(g.projects, g.rootFiles);
    OutputRefsMembers(KeptResults(g));
    InputRefsMembers(KeptWus(g));
    AppRefsMembers(KeptAvps(g));
  }

  lemma RootsHere(g: Graph, q: Project, f: FileInfo)
    requires Local(g) && f.project == q
    ensures ByRoot(Part(g, q), f) <==> ByRoot(g, f)
  {
    FilterMembers(g.projects, {q});
    if p :| p in g.projects && p in g.rootFiles && f in g.rootFiles[p] {
      assert p == q;
      assert q in Part(g, q).projects;
    }
  }

  lemma PartFiles(g: Graph, q: Project)
    requires Local(g)
    ensures Collected(Part(g, q)).files == Part(Collected(g), q).files
  {
    var h := Part(g, q);
    var mine := FilesOf(g, q);
    PartMembers(g, q);
    KeptXfers(g);
    forall f | f in g.files && f in mine ensures f in Used(h) <==> f in Used(g) {
      UsedHere(g, q, f);
    }
    FilterBoth(g.files, mine, Used(h), mine * Used(g));
    FilterBoth(g.files, Used(g), FilesOf(Collected(g), q), mine * Used(g));
  }

  lemma KeptPfxHere(g: Graph, q: Project, x: PersFileXfer)
    requires Local(g) && CheckAll(g) && x in PfxsOf(g, q)
    ensures x in KeptPfxSet(Part(g, q)) <==> x in KeptPfxSet(g)
  {
    assert CheckPersFileXfer(g, x);
    UsedHere(g, q, x.fip);
    PartMembers(g, q);
  }

  lemma PartPfxs(g: Graph, q: Project)
    requires Local(g) && CheckAll(g)
    ensures Collected(Part(g, q)).pfxs == Part(Collected(g), q).pfxs
  {
    var h := Part(g, q);
    var mine := PfxsOf(g, q);
    KeptXfers(g);
    forall x | x in g.pfxs && x in mine ensures x in KeptPfxSet(h) <==> x in KeptPfxSet(g) {
      KeptPfxHere(g, q, x);
    }
    FilterBoth(g.pfxs, mine, KeptPfxSet(h), mine * KeptPfxSet(g));
    FilterBoth(g.pfxs, KeptPfxSet(g), PfxsOf(Collected(g), q), mine * KeptPfxSet(g));
  }

  ghost predicate Ends(g: Graph, y: FileXfer) {
    exists x :: x in g.pfxs && x !in KeptPfxSet(g) && x in g.fxpOf && g.fxpOf[x] == y
  }

  lemma EndsHere(g: Graph, q: Project, y: FileXfer)
    requires Local(g) && CheckAll(g) && Linked(g) && y in FxsOf(g, q)
    ensures Ends(Part(g, q), y) <==> Ends(g, y)
  {
    var h := Part(g, q);
    PartMembers(g, q);
    if x :| x in g.pfxs && x !in KeptPfxSet(g) && x in g.fxpOf && g.fxpOf[x] == y {
      KeptPfxHere(g, q, x);
      assert x in h.pfxs && x in h.fxpOf && h.fxpOf[x] == y;
    }
    if x :| x in h.pfxs && x !in KeptPfxSet(h) && x in h.fxpOf && h.fxpOf[x] == y {
      KeptPfxHere(g, q, x);
      assert x in g.pfxs && g.fxpOf[x] == y;
    }
  }

  lemma PartFxs(g: Graph, q: Project)
    requires Local(g) && CheckAll(g) && Linked(g)
    ensures Collected(Part(g, q)).fxs == Part(Collected(g), q).fxs
  {
    var h := Part(g, q);
    var mine, keep, keepHere := FxsOf(g, q), KeptFxSet(g, KeptPfxSet(g)), KeptFxSet(h, KeptPfxSet(h));
    PartMembers(g, q);
    KeptXfers(g);
    forall y | y in g.fxs && y in mine ensures y in keepHere <==> y in keep {
      EndsHere(g, q, y);
    }
    FilterBoth(g.fxs, mine, keepHere, mine * keep);
    FilterBoth(g.fxs, keep, FxsOf(Collected(g), q), mine * keep);
  }

  lemma PartAckedAndSticky(g: Graph, q: Project)
    requires Local(g) && CheckAll(g) && Linked(g)
    ensures Collected(Part(g, q)).acked == Part(Collected(g), q).acked
    ensures Collected(Part(g, q)).sticky == Part(Collected(g), q).sticky
  {
    PartResults(g, q);
    PartFiles(g, q);
    PartMembers(Collected(g), q);
  }

  lemma PartXferOf(g: Graph, q: Project)
    requires Local(g) && CheckAll(g) && Linked(g)
    ensures Collected(Part(g, q)).xferOf == Part(Collected(g), q).xferOf
  {
    PartFiles(g, q);
    PartMembers(Collected(g), q);
  }

  lemma PartFxpOf(g: Graph, q: Project)
    requires Local(g) && CheckAll(g) && Linked(g)
    ensures Collected(Part(g, q)).fxpOf == Part(Collected(g), q).fxpOf
  {
    PartPfxs(g, q);
    PartMembers(Collected(g), q);
  }

  /** Projects do not affect each other: what a collection leaves of a project
      is what it would leave if the project were alone. */
  lemma CollectionIsLocal(g: Graph, q: Project)
    requires Local(g) && CheckAll(g) && Linked(g)
    ensures Part(Collected(g), q) == Collected(Part(g, q))
  {
    PartResults(g, q);
    PartWus(g, q);
    PartAvps(g, q);
    PartFiles(g, q);
    PartPfxs(g, q);
    PartFxs(g, q);
    PartAckedAndSticky(g, q);
    PartXferOf(g, q);
    PartFxpOf(g, q);
    FilterSame(g.apps, AppsOf(g, q), AppsOf(Collected(g), q));
    FilterSame(g.tasks, TasksOf(g, q), TasksOf(Collected(g), q));
  }

  // ---- resetting a project ----------------------------------------------

  ghost function OthersApps(g: Graph, p: Project): set<App> {
    set a | a in g.apps && a.project != p
  }

  ghost function OthersAvps(g: Graph, p: Project): set<AppVersion> {
    set a | a in g.avps && a.project != p
  }

  ghost function OthersTasks(g: Graph, p: Project): set<ActiveTask> {
    set t | t in g.tasks && t.result.project != p
  }

  ghost function OthersPfxs(g: Graph, p: Project): set<PersFileXfer> {
    set x | x in g.pfxs && x.fip.project != p
  }

  /** Before the first collection of a reset: the project's tasks and transfers
      are gone, its results count as acked, it has no files of its own, and
      none of its files is sticky. */
  ghost function Cleared(g: Graph, p: Project): Graph {
    g.(
      tasks := Filter(g.tasks, OthersTasks(g, p)),
      pfxs := Filter(g.pfxs, OthersPfxs(g, p)),
      fxs := Filter(g.fxs, KeptFxSet(g, OthersPfxs(g, p))),
      rootFiles := (map o | o in g.rootFiles :: if o == p then [] else g.rootFiles[o]),
      acked := (set r | r in g.results && (r in g.acked || r.project == p)),
      sticky := (set f | f in g.sticky && f.project != p),
      xferOf := (map f | f in g.xferOf && f.project != p :: g.xferOf[f]),
      fxpOf := (map x | x in g.fxpOf && x.fip.project != p :: g.fxpOf[x]))
  }

  /** The project's applications and their versions go. */
  ghost function WithoutApps(g: Graph, p: Project): Graph {
    g.(apps := Filter(g.apps, OthersApps(g, p)), avps := Filter(g.avps, OthersAvps(g, p)))
  }

  /** `reset_project`, on values. */
  ghost function Reset(g: Graph, p: Project, dropApps: bool): Graph {
    var h := Collected(Cleared(g, p));
    if dropApps then Collected(WithoutApps(h, p)) else h
  }

  lemma ClearedMembers(g: Graph, p: Project)
    ensures Members(Cleared(g, p).tasks, g.tasks, OthersTasks(g, p))
    ensures Members(Cleared(g, p).pfxs, g.pfxs, OthersPfxs(g, p))
    ensures Members(Cleared(g, p).fxs, g.fxs, KeptFxSet(g, OthersPfxs(g, p)))
  {
    FilterMembers(g.tasks, OthersTasks(g, p));
    FilterMembers(g.pfxs, OthersPfxs(g, p));
    FilterMembers(g.fxs, KeptFxSet(g, OthersPfxs(g, p)));
  }

  /** Stopping a project's tasks and transfers leaves no dangling pointer. */
  lemma ClearedIsSafe(g: Graph, p: Project)
    requires CheckAll(g) && Linked(g)
    ensures CheckAll(Cleared(g, p)) && Linked(Cleared(g, p))
  {
    var c := Cleared(g, p);
    ClearedMembers(g, p);
    forall f | f in c.files ensures CheckFileInfo(c, f) {
      assert CheckFileInfo(g, f);
    }
    forall a | a in c.avps ensures CheckAppVersion(c, a) {
      assert CheckAppVersion(g, a);
    }
    forall w | w in c.wus ensures CheckWorkunit(c, w) {
      assert CheckWorkunit(g, w);
    }
    forall r | r in c.results ensures CheckResult(c, r) {
      assert CheckResult(g, r);
    }
    forall t | t in c.tasks ensures CheckActiveTask(c, t) {
      assert CheckActiveTask(g, t);
    }
    ClearedXfers(g, p);
    forall o | o in c.rootFiles ensures o in c.projects && FilesIn(c.rootFiles[o], c.files) {
      assert o in g.projects && FilesIn(g.rootFiles[o], g.files);
    }
  }

  lemma ClearedXfers(g: Graph, p: Project)
    requires CheckAll(g) && Linked(g)
    ensures forall x :: x in Cleared(g, p).pfxs ==> CheckPersFileXfer(Cleared(g, p), x)
    ensures forall y :: y in Cleared(g, p).fxs ==> exists x :: x in Cleared(g, p).fxpOf && Cleared(g, p).fxpOf[x] == y
  {
    var c := Cleared(g, p);
    ClearedMembers(g, p);
    forall x | x in c.pfxs ensures CheckPersFileXfer(c, x) {
      assert CheckPersFileXfer(g, x);
    }
    forall y | y in c.fxs ensures exists x :: x in c.fxpOf && c.fxpOf[x] == y {
      assert y in g.fxs;
      var x :| x in g.fxpOf && g.fxpOf[x] == y;
      assert x in g.pfxs && x in OthersPfxs(g, p);
      assert x in c.fxpOf;
    }
  }

  /** After the first collection nothing of the project is left but its
      applications, their versions and what files these need. */
  ghost predicate OnlyAppsOf(h: Graph, p: Project) {
    && (forall r :: r in h.results ==> r.project != p) && (forall w :: w in h.wus ==> w.project != p)
    && (forall t :: t in h.tasks ==> t.result.project != p) && (forall x :: x in h.pfxs ==> x.fip.project != p)
    && (forall y :: y in h.fxs ==> y.fip.project != p) && (forall f :: f in h.sticky ==> f.project != p)
    && (p in h.rootFiles ==> h.rootFiles[p] == [])
  }

  lemma ResetDropsJobs(g: Graph, p: Project)
    requires CheckAll(g) && Linked(g) && Local(g)
    ensures OnlyAppsOf(Collected(Cleared(g, p)), p)
  {
    hide KeptAvps, Filter, CheckResult;
    var c := Cleared(g, p);
    var h := Collected(c);
    ClearedMembers(g, p);
    ClearedIsSafe(g, p);
    CollectionIsSafe(c);
    KeptMembers(c);
    KeptXfers(c);
    forall r | r in h.results ensures r.project != p {
      assert r in Live(c);
    }
    forall w | w in h.wus ensures w.project != p {
      var r :| r in KeptResults(c) && r.wup == w;
    }
    forall y | y in h.fxs ensures y.fip.project != p {
      var x :| x in h.fxpOf && h.fxpOf[x] == y;
      assert x in h.pfxs;
    }
  }

  lemma WithoutAppsMembers(h: Graph, p: Project)
    ensures Members(WithoutApps(h, p).apps, h.apps, OthersApps(h, p))
    ensures Members(WithoutApps(h, p).avps, h.avps, OthersAvps(h, p))
  {
    FilterMembers(h.apps, OthersApps(h, p));
    FilterMembers(h.avps, OthersAvps(h, p));
  }

  lemma WithoutAppsIsSafe(h: Graph, p: Project)
    requires CheckAll(h) && Linked(h) && Local(h) && OnlyAppsOf(h, p)
    ensures CheckAll(WithoutApps(h, p)) && Linked(WithoutApps(h, p))
  {
    var k := WithoutApps(h, p);
    WithoutAppsMembers(h, p);
    forall f | f in k.files ensures CheckFileInfo(k, f) {
      assert CheckFileInfo(h, f);
    }
    forall a | a in k.avps ensures CheckAppVersion(k, a) {
      assert CheckAppVersion(h, a) && a in h.avps;
    }
    forall w | w in k.wus ensures CheckWorkunit(k, w) {
      assert CheckWorkunit(h, w);
    }
    forall r | r in k.results ensures CheckResult(k, r) && r.avp in k.avps {
      assert CheckResult(h, r);
    }
    forall t | t in k.tasks ensures CheckActiveTask(k, t) {
      assert CheckActiveTask(h, t) && t.result in h.results;
    }
    forall x | x in k.pfxs ensures CheckPersFileXfer(k, x) {
      assert CheckPersFileXfer(h, x);
    }
  }

  lemma LocalStays(g: Graph)
    requires Local(g)
    ensures Local(Collected(g))
  {
    KeptMembers(g);
  }

  lemma ResetStages(g: Graph, p: Project)
    requires CheckAll(g) && Linked(g) && Local(g)
    ensures var c, h := Cleared(g, p), Collected(Cleared(g, p));
            && CheckAll(c) && Linked(c) && Local(c) && CheckAll(h) && Linked(h) && Local(h) && OnlyAppsOf(h, p)
            && CheckAll(WithoutApps(h, p)) && Linked(WithoutApps(h, p)) && Local(WithoutApps(h, p))
  {
    var c, h := Cleared(g, p), Collected(Cleared(g, p));
    ClearedIsSafe(g, p);
    assert Local(c);
    CollectionIsSafe(c);
    LocalStays(c);
    ResetDropsJobs(g, p);
    WithoutAppsIsSafe(h, p);
    WithoutAppsMembers(h, p);
  }

  /** Nothing of the project is left. */
  ghost predicate NothingOf(g: Graph, p: Project) {
    && OnlyAppsOf(g, p) && (forall a :: a in g.apps ==> a.project != p) && (forall a :: a in g.avps ==> a.project != p)
    && (forall f :: f in g.files ==> f.project != p)
  }

  lemma CollectionDropsFilesOf(k: Graph, p: Project)
    requires Local(k) && OnlyAppsOf(k, p) && forall a :: a in k.avps ==> a.project != p
    ensures forall f :: f in Collected(k).files ==> f.project != p
  {
    KeptXfers(k);
    KeptMembers(k);
    forall f | f in Collected(k).files ensures f.project != p {
      UsedIsReachable(k, f);
    }
  }

  /** A reset that drops applications leaves no result, workunit, application,
      version, file, transfer or task of the project. */
  lemma ResetLeavesNothing(g: Graph, p: Project)
    requires CheckAll(g) && Linked(g) && Local(g)
    ensures NothingOf(Reset(g, p, true), p)
  {
    var h := Collected(Cleared(g, p));
    var k := WithoutApps(h, p);
    ResetStages(g, p);
    WithoutAppsMembers(h, p);
    CollectionDropsFilesOf(k, p);
    KeptMembers(k);
    KeptXfers(k);
  }

  lemma UnusedAfterReset(g: Graph, p: Project, a: AppVersion)
    requires CheckAll(g) && Linked(g) && Local(g) && a in g.avps && a.project == p
    ensures forall r :: r in Collected(Cleared(g, p)).results ==> r.avp != a
  {
    ResetStages(g, p);
    forall r | r in Collected(Cleared(g, p)).results ensures r.avp != a {
      assert r.avp.project == r.project != p;
    }
  }

  lemma ResetKeepsApps(g: Graph, p: Project)
    requires CheckAll(g) && Linked(g) && Local(g)
    ensures OnlyAppsOf(Reset(g, p, false), p) && Reset(g, p, false).apps == g.apps
  {
    ResetStages(g, p);
  }

  /** A reset that keeps applications leaves of the project only these and their newest
      versions, with the files of the versions. */
  lemma ResetKeepsNewest(g: Graph, p: Project, a: AppVersion)
    requires CheckAll(g) && Linked(g) && Local(g) && a in g.avps && a.project == p
    ensures OnlyAppsOf(Reset(g, p, false), p) && Reset(g, p, false).apps == g.apps
    ensures a in Reset(g, p, false).avps <==>
              forall b :: b in g.avps && b.app == a.app && b.planClass == a.planClass && b.platform == a.platform ==>
                b.versionNum <= a.versionNum
  {
    ResetStages(g, p);
    UnusedAfterReset(g, p, a);
    VersionStaysIff(Cleared(g, p), a);
  }

  lemma ClearedSparesTransfers(g: Graph, p: Project, q: Project)
    requires p != q && Linked(g)
    ensures Part(Cleared(g, p), q).pfxs == Part(g, q).pfxs && Part(Cleared(g, p), q).fxs == Part(g, q).fxs
  {
    var c := Cleared(g, p);
    ClearedMembers(g, p);
    FilterBoth(g.pfxs, OthersPfxs(g, p), PfxsOf(c, q), PfxsOf(g, q));
    FilterBoth(g.fxs, KeptFxSet(g, OthersPfxs(g, p)), FxsOf(c, q), FxsOf(g, q));
  }

  lemma ClearedSparesLists(g: Graph, p: Project, q: Project)
    requires p != q
    ensures var c, d := Part(Cleared(g, p), q), Part(g, q);
            c.apps == d.apps && c.files == d.files && c.avps == d.avps && c.wus == d.wus && c.results == d.results
              && c.tasks == d.tasks
  {
    var c := Cleared(g, p);
    ClearedMembers(g, p);
    FilterBoth(g.tasks, OthersTasks(g, p), TasksOf(c, q), TasksOf(g, q));
    FilterSame(g.apps, AppsOf(g, q), AppsOf(c, q));
    FilterSame(g.files, FilesOf(g, q), FilesOf(c, q));
    FilterSame(g.avps, AvpsOf(g, q), AvpsOf(c, q));
    FilterSame(g.wus, WusOf(g, q), WusOf(c, q));
    FilterSame(g.results, ResultsOf(g, q), ResultsOf(c, q));
  }

  lemma ClearedSparesOthers(g: Graph, p: Project, q: Project)
    requires p != q && Linked(g)
    ensures Part(Cleared(g, p), q) == Part(g, q)
  {
    hide Filter, KeptAvps;
    var c, d := Part(Cleared(g, p), q), Part(g, q);
    ClearedSparesTransfers(g, p, q);
    ClearedSparesLists(g, p, q);
    assert c.acked == d.acked;
    assert c.rootFiles == d.rootFiles;
    assert c.sticky == d.sticky;
    assert c.xferOf == d.xferOf;
    assert c.fxpOf == d.fxpOf;
  }

  lemma WithoutAppsSparesOthers(h: Graph, p: Project, q: Project)
    requires p != q
    ensures Part(WithoutApps(h, p), q) == Part(h, q)
  {
    var k := WithoutApps(h, p);
    WithoutAppsMembers(h, p);
    FilterBoth(h.apps, OthersApps(h, p), AppsOf(k, q), AppsOf(h, q));
    FilterBoth(h.avps, OthersAvps(h, p), AvpsOf(k, q), AvpsOf(h, q));
    FilterSame(h.files, FilesOf(h, q), FilesOf(k, q));
    FilterSame(h.wus, WusOf(h, q), WusOf(k, q));
    FilterSame(h.results, ResultsOf(h, q), ResultsOf(k, q));
    FilterSame(h.tasks, TasksOf(h, q), TasksOf(k, q));
    FilterSame(h.pfxs, PfxsOf(h, q), PfxsOf(k, q));
    FilterSame(h.fxs, FxsOf(h, q), FxsOf(k, q));
  }

  lemma StickyInPart(g: Graph, q: Project)
    requires Linked(g)
    ensures forall f :: f in Part(g, q).sticky ==> f in Part(g, q).files
  {
    PartMembers(g, q);
  }

  /** For every other project, a reset does exactly what one garbage
      collection does. */
  lemma ResetSparesOthers(g: Graph, p: Project, q: Project, dropApps: bool)
    requires CheckAll(g) && Linked(g) && Local(g) && p != q
    ensures Part(Reset(g, p, dropApps), q) == Part(Collected(g), q)
  {
    var c := Cleared(g, p);
    var h := Collected(c);
    ResetStages(g, p);
    ClearedSparesOthers(g, p, q);
    CollectionIsLocal(c, q);
    CollectionIsLocal(g, q);
    if dropApps {
      WithoutAppsSparesOthers(h, p, q);
      CollectionIsLocal(WithoutApps(h, p), q);
      StickyInPart(c, q);
      CollectionIsIdempotent(Part(c, q));
    }
  }
}
