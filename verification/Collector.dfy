/** The garbage collection and the project reset, on the client's lists
    (client/client_state.cpp:1249-1515, 1738-1835). */
module Collector {
  import opened ClientTypes
  import opened Lists
  import opened TaskControl
  import opened ObjectGraph
  import opened CollectionLaws

  // ---- reference counts -------------------------------------------------

  ghost predicate FilesCount(files: seq<FileInfo>, bag: multiset<FileInfo>)
    reads files`refCnt
  {
    forall f :: f in files ==> f.refCnt == bag[f]
  }

  /** Each reference in the list adds one to its file's count. */
  method AddRefs(fs: seq<FileInfo>, ghost files: seq<FileInfo>, ghost bag: multiset<FileInfo>)
    requires FilesIn(fs, files) && FilesCount(files, bag)
    modifies files`refCnt
    ensures FilesCount(files, bag + multiset(fs))
  {
    for j := 0 to |fs|
      invariant FilesCount(files, bag + multiset(fs[..j]))
    {
      assert fs[..j + 1] == fs[..j] + [fs[j]] && fs[j] in fs;
      fs[j].refCnt := fs[j].refCnt + 1;
    }
    assert fs[..|fs|] == fs;
  }

  lemma RootRefsNext(projects: seq<Project>, rootFiles: map<Project, seq<FileInfo>>, i: nat)
    requires i < |projects| && projects[i] in rootFiles
    ensures RootRefs(projects[..i + 1], rootFiles) ==
              RootRefs(projects[..i], rootFiles) + multiset(rootFiles[projects[i]])
  {
    assert projects[..i + 1][..i] == projects[..i];
  }

  /** The user and project files of one project. */
  method AddFilesOf(p: Project, ghost files: seq<FileInfo>, ghost bag: multiset<FileInfo>)
    requires FilesIn(p.userFiles + p.projectFiles, files) && FilesCount(files, bag)
    modifies files`refCnt
    ensures FilesCount(files, bag + multiset(p.userFiles + p.projectFiles))
  {
    assert forall f :: f in p.userFiles || f in p.projectFiles ==> f in p.userFiles + p.projectFiles;
    AddRefs(p.userFiles, files, bag);
    AddRefs(p.projectFiles, files, bag + multiset(p.userFiles));
    assert bag + multiset(p.userFiles) + multiset(p.projectFiles) == bag + multiset(p.userFiles + p.projectFiles);
  }

  ghost function WupRefs(rs: seq<Result>): multiset<Workunit> {
    if rs == [] then multiset{} else WupRefs(rs[..|rs| - 1]) + multiset{rs[|rs| - 1].wup}
  }

  ghost function AvpRefs(rs: seq<Result>): multiset<AppVersion> {
    if rs == [] then multiset{} else AvpRefs(rs[..|rs| - 1]) + multiset{rs[|rs| - 1].avp}
  }

  ghost predicate WupRefsAre(rs: seq<Result>) {
    (forall w :: w in WupRefs(rs) ==> w in WusUsedBy(rs)) && (forall w :: w in WusUsedBy(rs) ==> w in WupRefs(rs))
  }

  lemma {:induction false} WupRefsMembers(rs: seq<Result>)
    ensures WupRefsAre(rs)
  {
    if rs != [] {
      WupRefsMembers(rs[..|rs| - 1]);
      assert rs == rs[..|rs| - 1] + [rs[|rs| - 1]];
    }
  }

  lemma {:induction false} AvpRefsMembers(rs: seq<Result>, a: AppVersion)
    ensures a in AvpRefs(rs) <==> exists r :: r in rs && r.avp == a
  {
    if rs != [] {
      AvpRefsMembers(rs[..|rs| - 1], a);
      assert rs == rs[..|rs| - 1] + [rs[|rs| - 1]];
    }
  }

  ghost predicate WusCount(wus: seq<Workunit>, bag: multiset<Workunit>)
    reads wus`refCnt
  {
    forall w :: w in wus ==> w.refCnt == bag[w]
  }

  ghost predicate AvpsCount(avps: seq<AppVersion>, bag: multiset<AppVersion>)
    reads avps`refCnt
  {
    forall a :: a in avps ==> a.refCnt == bag[a]
  }

  // ---- the state --------------------------------------------------------

  class ObjectStore {
    var projects: seq<Project>
    var apps: seq<App>
    var fileInfos: seq<FileInfo>
    var appVersions: seq<AppVersion>
    var workunits: seq<Workunit>
    var results: seq<Result>
    var activeTasks: seq<ActiveTask>
    var persFileXfers: seq<PersFileXfer>
    var fileXfers: seq<FileXfer>

    ghost function RootFiles(): map<Project, seq<FileInfo>>
      reads `projects, projects`userFiles, projects`projectFiles
    {
      map p | p in projects :: p.userFiles + p.projectFiles
    }

    ghost function Acked(): set<Result>
      reads `results, results`gotServerAck
    {
      set r | r in results && r.gotServerAck
    }

    ghost function StickyFiles(): set<FileInfo>
      reads `fileInfos, fileInfos`sticky, fileInfos`status
    {
      set f | f in fileInfos && f.sticky && f.status >= 0
    }

    ghost function XferOf(): map<FileInfo, PersFileXfer>
      reads `fileInfos, fileInfos`persFileXfer
    {
      map f | f in fileInfos && f.persFileXfer != null :: f.persFileXfer as PersFileXfer
    }

    ghost function FxpOf(): map<PersFileXfer, FileXfer>
      reads `persFileXfers, persFileXfers`fxp
    {
      map x | x in persFileXfers && x.fxp != null :: x.fxp as FileXfer
    }

    ghost function View(): Graph
      reads this, projects, results, fileInfos, persFileXfers
    {
      Graph(projects, apps, fileInfos, appVersions, workunits, results, activeTasks, persFileXfers, fileXfers,
            RootFiles(), Acked(), StickyFiles(), XferOf(), FxpOf())
    }

    // ---- zeroing --------------------------------------------------------

    method ZeroCounts()
      modifies fileInfos`refCnt, appVersions`refCnt, workunits`refCnt
      ensures FilesCount(fileInfos, multiset{}) && WusCount(workunits, multiset{}) && AvpsCount(appVersions, multiset{})
    {
      for i := 0 to |workunits|
        invariant forall k :: 0 <= k < i ==> workunits[k].refCnt == 0
      {
        workunits[i].refCnt := 0;
      }
      for i := 0 to |fileInfos|
        invariant forall k :: 0 <= k < i ==> fileInfos[k].refCnt == 0
        invariant forall k :: 0 <= k < |workunits| ==> workunits[k].refCnt == 0
      {
        fileInfos[i].refCnt := 0;
      }
      for i := 0 to |appVersions|
        invariant forall k :: 0 <= k < i ==> appVersions[k].refCnt == 0
        invariant forall k :: 0 <= k < |workunits| ==> workunits[k].refCnt == 0
        invariant forall k :: 0 <= k < |fileInfos| ==> fileInfos[k].refCnt == 0
      {
        appVersions[i].refCnt := 0;
      }
    }

    /** The user and project files, by project. */
    ghost predicate RootsAre(roots: map<Project, seq<FileInfo>>)
      reads `projects, projects`userFiles, projects`projectFiles, `fileInfos
    {
      forall p :: p in projects ==>
        p in roots && roots[p] == p.userFiles + p.projectFiles && FilesIn(p.userFiles + p.projectFiles, fileInfos)
    }

    method CountProjectFiles(ghost roots: map<Project, seq<FileInfo>>)
      requires RootsAre(roots) && FilesCount(fileInfos, multiset{})
      modifies fileInfos`refCnt
      ensures FilesCount(fileInfos, RootRefs(projects, roots))
    {
      for i := 0 to |projects|
        invariant RootsAre(roots) && FilesCount(fileInfos, RootRefs(projects[..i], roots))
      {
        assert projects[i] in projects;
        RootRefsNext(projects, roots, i);
        AddFilesOf(projects[i], fileInfos, RootRefs(projects[..i], roots));
      }
      assert projects[..|projects|] == projects;
    }

    // ---- results --------------------------------------------------------

    method LookupResult(rp: Result) returns (atp: ActiveTask?)
      ensures if atp == null then !HasTask(activeTasks, rp) else atp in activeTasks && atp.result == rp
    {
      for i := 0 to |activeTasks|
        invariant forall k :: 0 <= k < i ==> activeTasks[k].result != rp
      {
        if activeTasks[i].result == rp { return activeTasks[i]; }
      }
      return null;
    }

    /** The pointers of a result are listed. */
    ghost predicate ResultListed(r: Result)
      reads `fileInfos, `workunits, `appVersions
    {
      FilesIn(r.outputFiles, fileInfos) && r.wup in workunits && r.avp in appVersions
    }

    ghost predicate Counts(files: multiset<FileInfo>, wus: multiset<Workunit>, avps: multiset<AppVersion>)
      reads `fileInfos, `workunits, `appVersions, fileInfos`refCnt, workunits`refCnt, appVersions`refCnt
    {
      FilesCount(fileInfos, files) && WusCount(workunits, wus) && AvpsCount(appVersions, avps)
    }

    /** A result that stays counts for its output files, version and workunit. */
    method CountResult(rp: Result, ghost files: multiset<FileInfo>, ghost wus: multiset<Workunit>,
                       ghost avps: multiset<AppVersion>)
      requires ResultListed(rp) && Counts(files, wus, avps)
      modifies fileInfos`refCnt, workunits`refCnt, appVersions`refCnt
      ensures Counts(files + multiset(rp.outputFiles), wus + multiset{rp.wup}, avps + multiset{rp.avp})
    {
      AddRefs(rp.outputFiles, fileInfos, files);
      rp.avp.refCnt := rp.avp.refCnt + 1;
      rp.wup.refCnt := rp.wup.refCnt + 1;
    }

    ghost function AckedTasks(rs: seq<Result>): set<ActiveTask>
      reads `activeTasks, rs`gotServerAck
    {
      set t | t in activeTasks && t.result in rs && t.result.gotServerAck
    }

    /** One result of the scan: it goes if it was acked and has no task.  A task
        of an acked result is aborted. */
    method ScanResult(rp: Result, ghost files: multiset<FileInfo>, ghost wus: multiset<Workunit>,
                      ghost avps: multiset<AppVersion>)
        returns (keep: bool)
      requires ResultListed(rp) && Counts(files, wus, avps) && OneTaskPerResult(activeTasks)
      modifies fileInfos`refCnt, workunits`refCnt, appVersions`refCnt, AckedTasks([rp])`taskState
      ensures keep <==> !rp.gotServerAck || HasTask(activeTasks, rp)
      ensures if keep then Counts(files + multiset(rp.outputFiles), wus + multiset{rp.wup}, avps + multiset{rp.avp})
              else Counts(files, wus, avps)
      ensures forall t :: t in AckedTasks([rp]) ==> t.taskState in {AbortPending, Aborted}
    {
      if rp.gotServerAck {
        var atp := LookupResult(rp);
        if atp == null { return false; }
        AbortTask(atp);
      }
      CountResult(rp, files, wus, avps);
      keep := true;
    }

    static ghost predicate Aborting(ts: set<ActiveTask>)
      reads ts`taskState
    {
      forall t :: t in ts ==> t.taskState in {AbortPending, Aborted}
    }

    /** Of these tasks, those of scanned results are being aborted. */
    static ghost predicate AbortingIn(ts: set<ActiveTask>, scanned: seq<Result>)
      reads ts`taskState
    {
      forall t :: t in ts && t.result in scanned ==> t.taskState in {AbortPending, Aborted}
    }

    /** `ts` are the tasks of the acked results. */
    ghost predicate AckedTasksAre(rs: seq<Result>, ts: set<ActiveTask>)
      reads `activeTasks, rs`gotServerAck
    {
      && (forall t :: t in activeTasks && t.result in rs && t.result.gotServerAck ==> t in ts)
      && (forall t :: t in ts ==> t in activeTasks && t.result in rs && t.result.gotServerAck)
    }

    /** Counts when the results in `kept` have been counted. */
    ghost predicate CountsFor(files: multiset<FileInfo>, kept: seq<Result>)
      reads `fileInfos, `workunits, `appVersions, fileInfos`refCnt, workunits`refCnt, appVersions`refCnt
    {
      Counts(files + OutputRefs(kept), WupRefs(kept), AvpRefs(kept))
    }

    lemma CountsNext(files: multiset<FileInfo>, kept: seq<Result>, rp: Result)
      requires Counts(files + OutputRefs(kept) + multiset(rp.outputFiles), WupRefs(kept)
               + multiset{rp.wup}, AvpRefs(kept) + multiset{rp.avp})
      ensures CountsFor(files, kept + [rp])
    {
      assert (kept + [rp])[..|kept|] == kept;
      assert files + OutputRefs(kept) + multiset(rp.outputFiles) ==
             files + (OutputRefs(kept) + multiset(rp.outputFiles));
    }

    ghost predicate Scannable(was: seq<Result>, live: set<Result>)
      reads `fileInfos, `workunits, `appVersions, `activeTasks, was`gotServerAck
    {
      forall r :: r in was ==> ResultListed(r) && (r in live <==> !r.gotServerAck || HasTask(activeTasks, r))
    }

    /** One turn of the scan. */
    method NextResult(i: nat, ghost was: seq<Result>, ghost live: set<Result>, ghost done: seq<Result>,
                      ghost kept: seq<Result>, ghost files: multiset<FileInfo>, ghost ts: set<ActiveTask>)
        returns (keep: bool, ghost done': seq<Result>, ghost kept': seq<Result>)
      requires Erasing(was, live, done, results, kept) && i == |kept| < |results| && OneTaskPerResult(activeTasks)
      requires CountsFor(files, kept) && AckedTasksAre(was, ts) && AbortingIn(ts, done)
      requires Scannable(was, live)
      modifies `results, fileInfos`refCnt, workunits`refCnt, appVersions`refCnt, ts`taskState
      ensures Erasing(was, live, done', results, kept') && |kept'| == (if keep then i + 1 else i)
              && |done'| == |done| + 1
      ensures if keep then results == old(results) else |results| < old(|results|)
      ensures CountsFor(files, kept') && AbortingIn(ts, done')
    {
      hide WusCount, FilesIn, OneTaskPerResult, Counts, HasTask;
      EraseNext(was, live, done, results, kept);
      kept', done' := kept, done + [results[i]];
      var rp := results[i];
      assert rp in was;
      keep := ScanResult(rp, files + OutputRefs(kept), WupRefs(kept), AvpRefs(kept));
      if keep {
        CountsNext(files, kept, rp);
        kept' := kept + [rp];
      } else {
        results := results[..i] + results[i + 1..];
      }
    }

    method ScanResults(ghost files: multiset<FileInfo>, ghost live: set<Result>, ghost ts: set<ActiveTask>)
        returns (action: bool)
      requires Counts(files, multiset{}, multiset{}) && OneTaskPerResult(activeTasks) && Scannable(results, live)
               && AckedTasksAre(results, ts)
      modifies `results, fileInfos`refCnt, workunits`refCnt, appVersions`refCnt, ts`taskState
      ensures results == Filter(old(results), live) && CountsFor(files, results)
      ensures action <==> |results| < |old(results)|
      ensures Aborting(ts)
    {
      hide ResultListed;
      ghost var was := results;
      ghost var done: seq<Result>, kept: seq<Result> := [], [];
      var i: nat := 0;
      action := false;
      EraseStarts(was, live);
      assert files + multiset{} == files;
      while i < |results|
        invariant Scannable(was, live) && AckedTasksAre(was, ts)
        invariant Erasing(was, live, done, results, kept) && i == |kept|
        invariant |results| <= |was| && (action <==> |results| < |was|)
        invariant CountsFor(files, kept) && AbortingIn(ts, done)
        decreases |was| - |done|
      {
        var keep;
        keep, done, kept := NextResult(i, was, live, done, kept, files, ts);
        i := if keep then i + 1 else i;
        action := action || !keep;
      }
      EraseEnds(was, live, done, results, kept);
    }

    // ---- workunits ------------------------------------------------------

    /** One turn: a workunit that no result refers to goes, another one counts
        for its input files. */
    method NextWorkunit(i: nat, ghost was: seq<Workunit>, ghost used: set<Workunit>, ghost done: seq<Workunit>,
                        ghost kept: seq<Workunit>, ghost files: multiset<FileInfo>)
        returns (keep: bool, ghost done': seq<Workunit>, ghost kept': seq<Workunit>)
      requires Erasing(was, used, done, workunits, kept) && i == |kept| < |workunits|
      requires FilesCount(fileInfos, files + InputRefs(kept))
      requires forall w :: w in was ==> FilesIn(w.inputFiles, fileInfos) && (w in used <==> w.refCnt != 0)
      modifies `workunits, fileInfos`refCnt
      ensures Erasing(was, used, done', workunits, kept') && |kept'| == (if keep then i + 1 else i)
              && |done'| == |done| + 1
      ensures if keep then workunits == old(workunits) else |workunits| < old(|workunits|)
      ensures FilesCount(fileInfos, files + InputRefs(kept'))
    {
      EraseNext(was, used, done, workunits, kept);
      kept', done' := kept, done + [workunits[i]];
      var wup := workunits[i];
      keep := wup.refCnt != 0;
      if keep {
        AddRefs(wup.inputFiles, fileInfos, files + InputRefs(kept));
        kept' := kept + [wup];
        assert kept'[..|kept|] == kept;
        assert files + InputRefs(kept) + multiset(wup.inputFiles) ==
               files + (InputRefs(kept) + multiset(wup.inputFiles));
      } else {
        workunits := workunits[..i] + workunits[i + 1..];
      }
    }

    method ScanWorkunits(ghost files: multiset<FileInfo>, ghost used: set<Workunit>, ghost bag: multiset<Workunit>)
        returns (action: bool)
      requires FilesCount(fileInfos, files) && WusCount(workunits, bag)
      requires forall w :: w in workunits ==> FilesIn(w.inputFiles, fileInfos) && (w in used <==> w.refCnt != 0)
      modifies `workunits, fileInfos`refCnt
      ensures workunits == Filter(old(workunits), used) && FilesCount(fileInfos, files + InputRefs(workunits))
      ensures WusCount(workunits, bag)
      ensures action <==> |workunits| < |old(workunits)|
    {
      ghost var was, done: seq<Workunit>, kept: seq<Workunit> := workunits, [], [];
      var i: nat := 0;
      action := false;
      EraseStarts(was, used);
      assert files + multiset{} == files;
      while i < |workunits|
        invariant Erasing(was, used, done, workunits, kept) && i == |kept|
        invariant |workunits| <= |was| && (action <==> |workunits| < |was|)
        invariant FilesCount(fileInfos, files + InputRefs(kept))
        decreases |was| - |done|
      {
        var keep;
        keep, done, kept := NextWorkunit(i, was, used, done, kept, files);
        i := if keep then i + 1 else i;
        action := action || !keep;
      }
      EraseEnds(was, used, done, workunits, kept);
      FilterMembers(was, used);
    }

    // ---- application versions -------------------------------------------

    method FindSuperseding(avp: AppVersion) returns (found: bool)
      ensures found <==> Superseded(avp, appVersions)
    {
      found := false;
      for j := 0 to |appVersions|
        invariant forall k :: 0 <= k < j ==> !Supersedes(appVersions[k], avp)
      {
        var avp2 := appVersions[j];
        if avp2.app == avp.app && avp2.versionNum > avp.versionNum && avp2.planClass == avp.planClass
          && avp2.platform == avp.platform {
          assert Supersedes(avp2, avp);
          return true;
        }
      }
    }

    /** One turn: a version that no result refers to goes if a newer one is still there. */
    method NextAppVersion(i: nat, ghost was: seq<AppVersion>, ghost keeps: set<AppVersion>, ghost done: seq<AppVersion>,
                          ghost kept: seq<AppVersion>)
        returns (keep: bool, ghost done': seq<AppVersion>, ghost kept': seq<AppVersion>)
      requires Erasing(was, keeps, done, appVersions, kept) && i == |kept| < |appVersions| && Covering(was, appVersions)
      requires forall a :: a in was ==> (a in keeps <==> a.refCnt != 0 || !Superseded(a, was))
      modifies `appVersions
      ensures Erasing(was, keeps, done', appVersions, kept') && |kept'| == (if keep then i + 1 else i)
              && |done'| == |done| + 1 && Covering(was, appVersions)
      ensures if keep then appVersions == old(appVersions) else |appVersions| < old(|appVersions|)
    {
      EraseNext(was, keeps, done, appVersions, kept);
      kept', done' := kept, done + [appVersions[i]];
      keep := true;
      var avp := appVersions[i];
      SupersededNow(was, appVersions, avp);
      if avp.refCnt == 0 {
        var found := FindSuperseding(avp);
        keep := !found;
      }
      if keep {
        kept' := kept + [avp];
      } else {
        CoveringNext(was, appVersions, i);
        appVersions := appVersions[..i] + appVersions[i + 1..];
      }
    }

    method ScanAppVersions(ghost keeps: set<AppVersion>, ghost bag: multiset<AppVersion>) returns (action: bool)
      requires AvpsCount(appVersions, bag)
      requires forall a :: a in appVersions ==> (a in keeps <==> a.refCnt != 0 || !Superseded(a, appVersions))
      modifies `appVersions
      ensures appVersions == Filter(old(appVersions), keeps) && AvpsCount(appVersions, bag)
      ensures action <==> |appVersions| < |old(appVersions)|
    {
      ghost var was, done: seq<AppVersion>, kept: seq<AppVersion> := appVersions, [], [];
      var i: nat := 0;
      action := false;
      EraseStarts(was, keeps);
      while i < |appVersions|
        invariant Erasing(was, keeps, done, appVersions, kept) && i == |kept| && Covering(was, appVersions)
        invariant |appVersions| <= |was| && (action <==> |appVersions| < |was|)
        decreases |was| - |done|
      {
        var keep;
        keep, done, kept := NextAppVersion(i, was, keeps, done, kept);
        i := if keep then i + 1 else i;
        action := action || !keep;
      }
      EraseEnds(was, keeps, done, appVersions, kept);
      FilterMembers(was, keeps);
    }

    method CountAppFiles(ghost files: multiset<FileInfo>)
      requires FilesCount(fileInfos, files) && forall a :: a in appVersions ==> FilesIn(a.appFiles, fileInfos)
      modifies fileInfos`refCnt
      ensures FilesCount(fileInfos, files + AppRefs(appVersions))
    {
      assert files + multiset{} == files;
      for i := 0 to |appVersions|
        invariant FilesCount(fileInfos, files + AppRefs(appVersions[..i]))
      {
        ghost var before := AppRefs(appVersions[..i]);
        assert appVersions[..i + 1][..i] == appVersions[..i];
        AddRefs(appVersions[i].appFiles, fileInfos, files + before);
        assert files + before + multiset(appVersions[i].appFiles) ==
               files + (before + multiset(appVersions[i].appFiles));
      }
      assert appVersions[..|appVersions|] == appVersions;
    }

    // ---- files and their transfers --------------------------------------

    ghost predicate StickyIs(sticky: set<FileInfo>)
      reads `fileInfos, fileInfos`sticky, fileInfos`status
    {
      forall f :: f in fileInfos ==> (f in sticky <==> f.sticky && f.status >= 0)
    }

    /** Sticky files that are not marked for deletion. */
    method CountSticky(ghost files: multiset<FileInfo>, ghost sticky: set<FileInfo>)
      requires FilesCount(fileInfos, files) && Distinct(fileInfos) && StickyIs(sticky)
      modifies fileInfos`refCnt
      ensures FilesCount(fileInfos, files + multiset(sticky))
    {
      for i := 0 to |fileInfos|
        invariant forall k :: 0 <= k < |fileInfos| ==>
                    fileInfos[k].refCnt == files[fileInfos[k]] + if k < i && fileInfos[k] in sticky then 1 else 0
      {
        var fip := fileInfos[i];
        if !fip.sticky { continue; }
        if fip.status < 0 { continue; }
        fip.refCnt := fip.refCnt + 1;
      }
    }

    method RemoveFileXfer(fxp: FileXfer)
      requires Distinct(fileXfers)
      modifies `fileXfers
      ensures fileXfers == Filter(old(fileXfers), Without(old(fileXfers), fxp)) && Distinct(fileXfers)
    {
      for i := 0 to |fileXfers|
        invariant forall k :: 0 <= k < i ==> fileXfers[k] != fxp
      {
        if fileXfers[i] == fxp {
          EraseOne(fileXfers, i);
          EraseKeepsDistinct(fileXfers, i);
          fileXfers := fileXfers[..i] + fileXfers[i + 1..];
          return;
        }
      }
      FilterAll(fileXfers, Without(fileXfers, fxp));
    }

    /** Stop the transfer in progress. */
    method SuspendXfer(pfx: PersFileXfer)
      requires Distinct(fileXfers)
      modifies `fileXfers, pfx`fxp
      ensures pfx.fxp == null && Distinct(fileXfers)
      ensures fileXfers == if old(pfx.fxp) == null then old(fileXfers)
                           else Filter(old(fileXfers), Without<FileXfer>(old(fileXfers), old(pfx.fxp)))
    {
      if pfx.fxp != null {
        RemoveFileXfer(pfx.fxp);
        pfx.fxp := null;
      }
    }

    /** One turn: a transfer that is not to be kept goes, with what it has in progress. */
    method NextXfer(i: nat, keep: bool, ghost was: seq<PersFileXfer>, ghost keeps: set<PersFileXfer>,
                    ghost done: seq<PersFileXfer>,
                    ghost kept: seq<PersFileXfer>, ghost fxs: seq<FileXfer>, ghost fxpOf: map<PersFileXfer, FileXfer>,
                    ghost files: set<FileInfo>)
        returns (ghost done': seq<PersFileXfer>, ghost kept': seq<PersFileXfer>)
      requires Erasing(was, keeps, done, persFileXfers, kept) && i == |kept| < |persFileXfers| && Distinct(was)
               && Distinct(fileXfers)
      requires (keep <==> persFileXfers[i] in keeps) && (persFileXfers[i] in keeps || persFileXfers[i].fip in files)
      requires fileXfers == Filter(fxs, NotEnded(fxs, done, keeps, fxpOf)) && XfersAsBefore(was, |done|, keeps, fxpOf)
      modifies `persFileXfers, `fileXfers, was`fxp, files`persFileXfer
      ensures Erasing(was, keeps, done', persFileXfers, kept') && |kept'| == (if keep then i + 1 else i)
              && |done'| == |done| + 1
      ensures Distinct(fileXfers)
      ensures if keep then persFileXfers == old(persFileXfers) else |persFileXfers| < old(|persFileXfers|)
      ensures fileXfers == Filter(fxs, NotEnded(fxs, done', keeps, fxpOf)) && XfersAsBefore(was, |done'|, keeps, fxpOf)
      ensures forall f :: f in files ==>
                f.persFileXfer == if !keep && f == old(persFileXfers)[i].fip then null else old(f.persFileXfer)
    {
      EraseNext(was, keeps, done, persFileXfers, kept);
      kept', done' := kept, done + [persFileXfers[i]];
      var pfx := persFileXfers[i];
      NotEndedNext(fxs, done, pfx, keeps, fxpOf, pfx.fxp);
      if keep {
        kept' := kept + [pfx];
      } else {
        SuspendXfer(pfx);
        pfx.fip.persFileXfer := null;
        persFileXfers := persFileXfers[..i] + persFileXfers[i + 1..];
      }
    }

    /** The transfers to keep are those of used files. */
    static ghost predicate UseKnown(was: seq<PersFileXfer>, keeps: set<PersFileXfer>, unused: set<FileInfo>)
      reads (set x | x in was :: x.fip)`refCnt
    {
      forall x :: x in was ==> (x in keeps <==> x.fip.refCnt != 0) && (x in keeps || x.fip in unused)
    }

    /** Transfers that are kept or still to come have what they had in progress. */
    static ghost predicate XfersAsBefore(was: seq<PersFileXfer>, n: nat, keeps: set<PersFileXfer>,
                                         fxpOf: map<PersFileXfer, FileXfer>)
      reads was`fxp
    {
      forall k :: 0 <= k < |was| && (n <= k || was[k] in keeps) ==>
        was[k].fxp == if was[k] in fxpOf then fxpOf[was[k]] else null
    }

    lemma XfersStart(keeps: set<PersFileXfer>)
      ensures fileXfers == Filter(fileXfers, NotEnded(fileXfers, [], keeps, FxpOf()))
      ensures XfersAsBefore(persFileXfers, 0, keeps, FxpOf())
    {
      FilterAll(fileXfers, NotEnded(fileXfers, [], keeps, FxpOf()));
    }

    method DropXfers(ghost keeps: set<PersFileXfer>, ghost unused: set<FileInfo>)
      requires Distinct(persFileXfers) && Distinct(fileXfers) && UseKnown(persFileXfers, keeps, unused)
      modifies `persFileXfers, `fileXfers, persFileXfers`fxp, unused`persFileXfer
      ensures persFileXfers == Filter(old(persFileXfers), keeps)
      ensures fileXfers == Filter(old(fileXfers), NotEnded(old(fileXfers), old(persFileXfers), keeps, old(FxpOf())))
      ensures XfersAsBefore(old(persFileXfers), old(|persFileXfers|), keeps, old(FxpOf()))
    {
      hide Filter, NotEnded, XfersAsBefore, FxpOf, Distinct;
      ghost var was, done: seq<PersFileXfer>, kept: seq<PersFileXfer> := persFileXfers, [], [];
      ghost var fxs, fxpOf := fileXfers, FxpOf();
      var i: nat := 0;
      EraseStarts(was, keeps);
      XfersStart(keeps);
      while i < |persFileXfers|
        invariant Erasing(was, keeps, done, persFileXfers, kept) && i == |kept| && Distinct(fileXfers)
        invariant fileXfers == Filter(fxs, NotEnded(fxs, done, keeps, fxpOf))
                  && XfersAsBefore(was, |done|, keeps, fxpOf)
        decreases |was| - |done|
      {
        var keep := persFileXfers[i].fip.refCnt != 0;
        EraseNext(was, keeps, done, persFileXfers, kept);
        done, kept := NextXfer(i, keep, was, keeps, done, kept, fxs, fxpOf, unused);
        i := if keep then i + 1 else i;
      }
      EraseEnds(was, keeps, done, persFileXfers, kept);
    }

    method DropFiles(ghost used: set<FileInfo>) returns (action: bool)
      requires forall f :: f in fileInfos ==> (f in used <==> f.refCnt != 0)
      modifies `fileInfos
      ensures fileInfos == Filter(old(fileInfos), used)
      ensures action <==> |fileInfos| < |old(fileInfos)|
    {
      ghost var was, done: seq<FileInfo>, kept: seq<FileInfo> := fileInfos, [], [];
      var i: nat := 0;
      action := false;
      EraseStarts(was, used);
      while i < |fileInfos|
        invariant Erasing(was, used, done, fileInfos, kept) && i == |kept|
        invariant |fileInfos| <= |was| && (action <==> |fileInfos| < |was|)
        decreases |was| - |done|
      {
        EraseNext(was, used, done, fileInfos, kept);
        done := done + [fileInfos[i]];
        if fileInfos[i].refCnt == 0 {
          fileInfos := fileInfos[..i] + fileInfos[i + 1..];
          action := true;
        } else {
          kept := kept + [fileInfos[i]];
          i := i + 1;
        }
      }
      EraseEnds(was, used, done, fileInfos, kept);
    }

    // ---- the collection -------------------------------------------------

    /** The client's invariant. */
    ghost predicate Valid()
      reads this, projects, results, fileInfos, persFileXfers
    {
      CheckGraph(View())
    }

    method CountRoots(ghost roots: map<Project, seq<FileInfo>>)
      requires RootsAre(roots)
      modifies fileInfos`refCnt, workunits`refCnt, appVersions`refCnt
      ensures Counts(RootRefs(projects, roots), multiset{}, multiset{})
    {
      ZeroCounts();
      CountProjectFiles(roots);
    }

    /** Results, with all reference counts at the roots before. */
    method CollectResults(ghost roots: map<Project, seq<FileInfo>>, ghost live: set<Result>) returns (action: bool)
      requires RootsAre(roots) && OneTaskPerResult(activeTasks) && Scannable(results, live)
      modifies `results, fileInfos`refCnt, workunits`refCnt, appVersions`refCnt, AckedTasks(results)`taskState
      ensures results == Filter(old(results), live) && CountsFor(RootRefs(projects, roots), results)
      ensures action <==> |results| < |old(results)|
      ensures Aborting(old(AckedTasks(results)))
    {
      CountRoots(roots);
      action := ScanResults(RootRefs(projects, roots), live, AckedTasks(results));
    }

    /** Workunits that no result refers to, and superseded versions. */
    method CollectRecords(ghost files: multiset<FileInfo>, ghost keeps: set<AppVersion>) returns (action: bool)
      requires CountsFor(files, results) && RecordsListed() && VersionsToKeep(keeps, results)
      modifies `workunits, `appVersions, fileInfos`refCnt
      ensures workunits == Filter(old(workunits), WusUsedBy(results)) && appVersions == Filter(old(appVersions), keeps)
      ensures Counts(files + OutputRefs(results) + InputRefs(workunits), WupRefs(results), AvpRefs(results))
      ensures action <==> |workunits| < |old(workunits)| || |appVersions| < |old(appVersions)|
    {
      WupRefsMembers(results);
      action := ScanWorkunits(files + OutputRefs(results), WusUsedBy(results), WupRefs(results));
      var dropped := ScanAppVersions(keeps, AvpRefs(results));
      action := action || dropped;
    }

    /** Files of the versions that stay, and sticky files. */
    method CountOtherFiles(ghost files: multiset<FileInfo>, ghost sticky: set<FileInfo>)
      requires FilesCount(fileInfos, files) && Distinct(fileInfos) && StickyIs(sticky)
      requires forall a :: a in appVersions ==> FilesIn(a.appFiles, fileInfos)
      modifies fileInfos`refCnt
      ensures FilesCount(fileInfos, files + AppRefs(appVersions) + multiset(sticky))
    {
      CountAppFiles(files);
      CountSticky(files + AppRefs(appVersions), sticky);
    }

    method CollectAndCount(ghost files: multiset<FileInfo>, ghost keeps: set<AppVersion>, ghost sticky: set<FileInfo>)
        returns (action: bool)
      requires CountsFor(files, results) && RecordsListed() && VersionsToKeep(keeps, results) && Distinct(fileInfos)
               && StickyIs(sticky)
      modifies `workunits, `appVersions, fileInfos`refCnt
      ensures workunits == Filter(old(workunits), WusUsedBy(results)) && appVersions == Filter(old(appVersions), keeps)
      ensures Counts(files + OutputRefs(results) + InputRefs(workunits) + AppRefs(appVersions)
              + multiset(sticky), WupRefs(results), AvpRefs(results))
      ensures action <==> |workunits| < |old(workunits)| || |appVersions| < |old(appVersions)|
    {
      FilterMembers(appVersions, keeps);
      action := CollectRecords(files, keeps);
      CountOtherFiles(files + OutputRefs(results) + InputRefs(workunits), sticky);
    }

    /** Transfers and files without a reference go. */
    method CollectFiles(ghost refs: multiset<FileInfo>, ghost keeps: set<PersFileXfer>, ghost used: set<FileInfo>)
        returns (action: bool)
      requires FilesCount(fileInfos, refs) && Distinct(persFileXfers) && Distinct(fileXfers)
      requires forall x :: x in persFileXfers ==> x.fip in fileInfos && (x in keeps <==> x.fip in refs)
      requires forall f :: f in fileInfos ==> (f in used <==> f in refs)
      modifies `persFileXfers, `fileXfers, `fileInfos, persFileXfers`fxp,
               (set f | f in fileInfos && f !in used)`persFileXfer
      ensures persFileXfers == Filter(old(persFileXfers), keeps) && fileInfos == Filter(old(fileInfos), used)
      ensures fileXfers == Filter(old(fileXfers), NotEnded(old(fileXfers), old(persFileXfers), keeps, old(FxpOf())))
      ensures XfersAsBefore(old(persFileXfers), old(|persFileXfers|), keeps, old(FxpOf()))
      ensures action <==> |fileInfos| < |old(fileInfos)|
    {
      DropXfers(keeps, set f | f in fileInfos && f !in used);
      action := DropFiles(used);
    }

    ghost predicate RecordsListed()
      reads `fileInfos, `workunits, `appVersions
    {
      && (forall w :: w in workunits ==> FilesIn(w.inputFiles, fileInfos))
      && (forall a :: a in appVersions ==> FilesIn(a.appFiles, fileInfos))
    }

    ghost predicate VersionsToKeep(keeps: set<AppVersion>, rs: seq<Result>)
      reads `appVersions
    {
      forall a :: a in appVersions ==> (a in keeps <==> a in AvpRefs(rs) || !Superseded(a, appVersions))
    }

    /** The records that stay, with the counts of all references. */
    method CollectAllRecords(ghost roots: map<Project, seq<FileInfo>>, ghost live: set<Result>,
                             ghost keeps: set<AppVersion>, ghost sticky: set<FileInfo>)
        returns (action: bool)
      requires RootsAre(roots) && OneTaskPerResult(activeTasks) && Scannable(results, live) && StickyIs(sticky)
               && Distinct(fileInfos)
      requires RecordsListed() && VersionsToKeep(keeps, Filter(results, live))
      modifies `results, `workunits, `appVersions, fileInfos`refCnt, workunits`refCnt, appVersions`refCnt,
               AckedTasks(results)`taskState
      ensures results == Filter(old(results), live) && workunits == Filter(old(workunits), WusUsedBy(results))
      ensures appVersions == Filter(old(appVersions), keeps)
      ensures Counts(RootRefs(projects, roots) + OutputRefs(results) + InputRefs(workunits) + AppRefs(appVersions)
              + multiset(sticky),
                     WupRefs(results), AvpRefs(results))
      ensures Aborting(old(AckedTasks(results)))
      ensures action <==>
                |results| < |old(results)| || |workunits| < |old(workunits)| || |appVersions| < |old(appVersions)|
    {
      hide WusCount, Superseded, WupRefs;
      action := CollectResults(roots, live);
      var more := CollectAndCount(RootRefs(projects, roots), keeps, sticky);
      action := action || more;
    }

    lemma VersionsReady(g: Graph)
      requires g == View()
      ensures VersionsToKeep(KeptAvpSet(g), KeptResults(g))
    {
      forall a | a in appVersions
        ensures a in KeptAvpSet(g) <==> a in AvpRefs(KeptResults(g)) || !Superseded(a, appVersions)
      {
        AvpRefsMembers(KeptResults(g), a);
      }
    }

    // The fields that decide what is kept, against the graph.

    ghost predicate RootsAsIn(g: Graph)
      reads `projects, projects`userFiles, projects`projectFiles
    {
      && projects == g.projects && (forall p :: p in g.rootFiles ==> p in projects)
      && forall p :: p in projects ==> p in g.rootFiles && g.rootFiles[p] == p.userFiles + p.projectFiles
    }

    static ghost predicate AckedAsIn(g: Graph)
      reads g.results`gotServerAck
    {
      forall r :: r in g.results ==> (r.gotServerAck <==> r in g.acked)
    }

    static ghost predicate StickyAsIn(g: Graph)
      reads g.files`sticky, g.files`status
    {
      forall f :: f in g.files ==> (f in g.sticky <==> f.sticky && f.status >= 0)
    }

    static ghost predicate XfersAsIn(g: Graph)
      reads Used(g)`persFileXfer
    {
      forall f :: f in Used(g) ==> f.persFileXfer == if f in g.xferOf then g.xferOf[f] else null
    }

    static ghost predicate FxpsAsIn(g: Graph, pfxs: seq<PersFileXfer>)
      reads pfxs`fxp
    {
      forall x :: x in pfxs ==> x.fxp == if x in g.fxpOf then g.fxpOf[x] else null
    }

    lemma RecordsCollected(g: Graph)
      requires RootsAsIn(g) && AckedAsIn(g) && ListsAre(Collected(g))
      ensures RootFiles() == g.rootFiles && Acked() == Collected(g).acked
    {
      FilterMembers(g.results, Live(g));
    }

    lemma FilesCollected(g: Graph)
      requires StickyAsIn(g) && XfersAsIn(g) && FxpsAsIn(g, persFileXfers) && ListsAre(Collected(g))
      ensures StickyFiles() == Collected(g).sticky && XferOf() == Collected(g).xferOf && FxpOf() == Collected(g).fxpOf
    {
      FilterMembers(g.files, Used(g));
    }

    lemma ViewIsCollected(g: Graph, action: bool)
      requires RootsAsIn(g) && AckedAsIn(g) && StickyAsIn(g) && CollectedFrom(g, action)
      requires apps == g.apps && activeTasks == g.tasks
      ensures View() == Collected(g)
    {
      RecordsCollected(g);
      FilesCollected(g);
    }

    /** Files and transfers, by the graph. */
    method CollectTransfers(ghost g: Graph) returns (action: bool)
      requires FilesCount(fileInfos, Refs(g)) && Distinct(persFileXfers) && Distinct(fileXfers)
      requires fileInfos == g.files && persFileXfers == g.pfxs && fileXfers == g.fxs
      requires FxpsAsIn(g, g.pfxs) && XfersAsIn(g) && forall x :: x in g.fxpOf ==> x in g.pfxs
      requires forall x :: x in persFileXfers ==> x.fip in fileInfos
      modifies `persFileXfers, `fileXfers, `fileInfos, persFileXfers`fxp, fileInfos`persFileXfer
      ensures fileInfos == Collected(g).files && persFileXfers == Collected(g).pfxs && fileXfers == Collected(g).fxs
      ensures FxpsAsIn(g, persFileXfers) && XfersAsIn(g)
      ensures action <==> |fileInfos| < |g.files|
    {
      ghost var keeps := KeptPfxSet(g);
      assert FxpOf() == g.fxpOf;
      action := CollectFiles(Refs(g), keeps, Used(g));
      FilterSame(g.fxs, NotEnded(g.fxs, g.pfxs, keeps, g.fxpOf), KeptFxSet(g, keeps));
      FilterMembers(g.pfxs, keeps);
      forall x | x in persFileXfers ensures x.fxp == if x in g.fxpOf then g.fxpOf[x] else null {
        assert x in g.pfxs && x in keeps;
      }
    }

    /** What the collection leaves in the lists. */
    ghost predicate ListsAre(h: Graph)
      reads `fileInfos, `appVersions, `workunits, `results, `persFileXfers, `fileXfers
    {
      && fileInfos == h.files && appVersions == h.avps && workunits == h.wus && results == h.results
      && persFileXfers == h.pfxs && fileXfers == h.fxs
    }

    /** What the collector needs to know of the lists. */
    ghost predicate Prepared(g: Graph)
      reads this, projects, results`gotServerAck, fileInfos
    {
      && projects == g.projects && RootsAre(g.rootFiles) && OneTaskPerResult(activeTasks) && Scannable(results, Live(g))
         && StickyIs(g.sticky) && RecordsListed()
      && VersionsToKeep(KeptAvpSet(g), KeptResults(g))
      && Distinct(fileInfos) && Distinct(persFileXfers) && Distinct(fileXfers)
      && (forall x :: x in persFileXfers ==> x.fip in fileInfos)
    }

    /** The lists are those of the graph. */
    ghost predicate ListsFrom(g: Graph)
      reads `fileInfos, `appVersions, `workunits, `results, `persFileXfers, `fileXfers
    {
      && ListsAre(g) && (forall x :: x in g.fxpOf ==> x in g.pfxs)
    }

    lemma Ready(g: Graph)
      requires Valid() && g == View()
      ensures Prepared(g)
    {
      forall p | p in projects ensures FilesIn(p.userFiles + p.projectFiles, fileInfos) {
        assert p in g.rootFiles && FilesIn(g.rootFiles[p], g.files);
      }
      forall r | r in results
        ensures ResultListed(r) && (r in Live(g) <==> !r.gotServerAck || HasTask(activeTasks, r))
      {
        assert CheckResult(g, r);
      }
      forall w | w in workunits ensures FilesIn(w.inputFiles, fileInfos) {
        assert CheckWorkunit(g, w);
      }
      forall a | a in appVersions ensures FilesIn(a.appFiles, fileInfos) {
        assert CheckAppVersion(g, a);
      }
      forall x | x in persFileXfers ensures x.fip in fileInfos {
        assert CheckPersFileXfer(g, x);
      }
      VersionsReady(g);
    }

    lemma FieldsNow(g: Graph)
      requires g == View()
      ensures RootsAsIn(g) && AckedAsIn(g) && StickyAsIn(g) && XfersAsIn(g) && FxpsAsIn(g, g.pfxs) && ListsFrom(g)
    {
    }

    /** The records that stay, by the graph. */
    method CollectGraph(ghost g: Graph) returns (action: bool)
      requires Prepared(g) && ListsFrom(g)
      modifies `results, `workunits, `appVersions, fileInfos`refCnt, workunits`refCnt, appVersions`refCnt,
               AckedTasks(results)`taskState
      ensures results == KeptResults(g) && workunits == KeptWus(g) && appVersions == KeptAvps(g)
      ensures Counts(Refs(g), WupRefs(results), AvpRefs(results)) && Aborting(old(AckedTasks(results)))
      ensures action <==> |results| < |g.results| || |workunits| < |g.wus| || |appVersions| < |g.avps|
    {
      action := CollectAllRecords(g.rootFiles, Live(g), KeptAvpSet(g), g.sticky);
    }

    /** The lists and counts are what a collection of the graph leaves. */
    ghost predicate CollectedFrom(g: Graph, action: bool)
      reads `fileInfos, `appVersions, `workunits, `results, `persFileXfers, `fileXfers
      reads fileInfos`refCnt, workunits`refCnt, appVersions`refCnt, persFileXfers`fxp, g.files`persFileXfer
    {
      && ListsAre(Collected(g)) && XfersAsIn(g) && FxpsAsIn(g, persFileXfers)
      && Counts(Refs(g), WupRefs(results), AvpRefs(results))
      && (action <==>
           |results| < |g.results| || |workunits| < |g.wus| || |appVersions| < |g.avps| || |fileInfos| < |g.files|)
    }

    lemma TransfersReady(g: Graph)
      requires Prepared(g) && ListsFrom(g)
      ensures fileInfos == g.files && persFileXfers == g.pfxs && fileXfers == g.fxs
      ensures Distinct(persFileXfers) && Distinct(fileXfers)
      ensures forall x :: x in g.fxpOf ==> x in g.pfxs
      ensures forall x :: x in persFileXfers ==> x.fip in fileInfos
    {
    }

    lemma CountsAre(files: multiset<FileInfo>, wus: multiset<Workunit>, avps: multiset<AppVersion>)
      ensures Counts(files, wus, avps) <==>
                FilesCount(fileInfos, files) && WusCount(workunits, wus) && AvpsCount(appVersions, avps)
    {
    }

    lemma FewerCounted(files: seq<FileInfo>, bag: multiset<FileInfo>, keeps: set<FileInfo>)
      requires FilesCount(files, bag)
      ensures FilesCount(Filter(files, keeps), bag)
    {
      FilterMembers(files, keeps);
    }

    lemma CollectedNow(g: Graph, action: bool)
      requires results == KeptResults(g) && workunits == KeptWus(g) && appVersions == KeptAvps(g)
      requires fileInfos == Collected(g).files && persFileXfers == Collected(g).pfxs && fileXfers == Collected(g).fxs
      requires XfersAsIn(g) && FxpsAsIn(g, persFileXfers)
      requires FilesCount(g.files, Refs(g)) && WusCount(workunits, WupRefs(results))
               && AvpsCount(appVersions, AvpRefs(results))
      requires action <==>
                 |results| < |g.results| || |workunits| < |g.wus| || |appVersions| < |g.avps| || |fileInfos| < |g.files|
      ensures CollectedFrom(g, action)
    {
      hide FilesCount, WusCount, AvpsCount, Filter, XfersAsIn, FxpsAsIn, KeptResults, KeptWus, KeptAvps, Refs, WupRefs,
           AvpRefs;
      FewerCounted(g.files, Refs(g), Used(g));
    }

    method CollectLists(ghost g: Graph) returns (action: bool)
      requires Prepared(g) && ListsFrom(g) && XfersAsIn(g) && FxpsAsIn(g, g.pfxs)
      modifies `results, `workunits, `appVersions, `persFileXfers, `fileXfers, `fileInfos
      modifies fileInfos`refCnt, workunits`refCnt, appVersions`refCnt, AckedTasks(results)`taskState
      modifies persFileXfers`fxp, fileInfos`persFileXfer
      ensures CollectedFrom(g, action) && Aborting(old(AckedTasks(results)))
    {
      hide Prepared, ListsFrom, CollectedFrom, Counts, FilesCount, WusCount, AvpsCount, ListsAre, FxpsAsIn,
           Collected, KeptResults, KeptWus, KeptAvps, Refs, WupRefs, AvpRefs, Distinct;
      TransfersReady(g);
      action := CollectGraph(g);
      CountsAre(Refs(g), WupRefs(results), AvpRefs(results));
      var more := CollectTransfers(g);
      action := action || more;
      CollectedNow(g, action);
    }

    /** Nothing that the collector looks at, other than the counts, changes. */
    method CollectKeepingFields(ghost g: Graph) returns (action: bool)
      requires Prepared(g) && ListsFrom(g) && XfersAsIn(g) && FxpsAsIn(g, g.pfxs) && RootsAsIn(g) && AckedAsIn(g)
               && StickyAsIn(g)
      modifies `results, `workunits, `appVersions, `persFileXfers, `fileXfers, `fileInfos
      modifies fileInfos`refCnt, workunits`refCnt, appVersions`refCnt, AckedTasks(results)`taskState
      modifies persFileXfers`fxp, fileInfos`persFileXfer
      ensures RootsAsIn(g) && AckedAsIn(g) && StickyAsIn(g)
      ensures CollectedFrom(g, action) && Aborting(old(AckedTasks(results)))
    {
      hide *;
      action := CollectLists(g);
    }

    /** All that the collector needs, of the lists and of the fields. */
    ghost predicate Readiness(g: Graph)
      reads this, projects, results, fileInfos, persFileXfers, g.results, g.files, g.pfxs, Used(g)
    {
      && Prepared(g) && ListsFrom(g) && apps == g.apps && activeTasks == g.tasks
      && XfersAsIn(g) && FxpsAsIn(g, g.pfxs) && RootsAsIn(g) && AckedAsIn(g) && StickyAsIn(g)
    }

    lemma IsReady(g: Graph)
      requires Valid() && g == View()
      ensures Readiness(g)
    {
      Ready(g);
      FieldsNow(g);
    }

    lemma ReadyMeans(g: Graph)
      requires Readiness(g)
      ensures Prepared(g) && ListsFrom(g) && apps == g.apps && activeTasks == g.tasks
      ensures XfersAsIn(g) && FxpsAsIn(g, g.pfxs) && RootsAsIn(g) && AckedAsIn(g) && StickyAsIn(g)
    {
    }

    method CollectReady(ghost g: Graph) returns (action: bool)
      requires Readiness(g)
      modifies `results, `workunits, `appVersions, `persFileXfers, `fileXfers, `fileInfos
      modifies fileInfos`refCnt, workunits`refCnt, appVersions`refCnt, AckedTasks(results)`taskState
      modifies persFileXfers`fxp, fileInfos`persFileXfer
      ensures View() == Collected(g) && CollectedFrom(g, action) && Aborting(old(AckedTasks(results)))
    {
      hide *;
      ReadyMeans(g);
      action := CollectKeepingFields(g);
      ViewIsCollected(g, action);
    }

    method CollectGarbage() returns (action: bool)
      requires Valid()
      modifies `results, `workunits, `appVersions, `persFileXfers, `fileXfers, `fileInfos
      modifies fileInfos`refCnt, workunits`refCnt, appVersions`refCnt, AckedTasks(results)`taskState
      modifies persFileXfers`fxp, fileInfos`persFileXfer
      ensures View() == Collected(old(View()))
      ensures Counts(Refs(old(View())), WupRefs(results), AvpRefs(results)) && Aborting(old(AckedTasks(results)))
      ensures action <==>
                |results| < |old(results)| || |workunits| < |old(workunits)| || |appVersions| < |old(appVersions)|
                          || |fileInfos| < |old(fileInfos)|
    {
      ghost var g := View();
      IsReady(g);
      action := CollectReady(g);
    }

    ghost predicate FewerThan(g: Graph)
      reads `fileInfos, `appVersions, `workunits, `results, `persFileXfers, `activeTasks
    {
      && (forall t :: t in activeTasks ==> t in g.tasks)
      && (forall f :: f in fileInfos ==> f in g.files) && (forall w :: w in workunits ==> w in g.wus)
      && (forall a :: a in appVersions ==> a in g.avps) && (forall x :: x in persFileXfers ==> x in g.pfxs)
      && (forall r :: r in results ==> r in g.results)
    }

    lemma Fewer(g: Graph)
      requires View() == Collected(g)
      ensures FewerThan(g)
    {
      KeptMembers(g);
      KeptXfers(g);
    }

    /** What the records themselves say about who stays. */
    lemma StayAsRecorded(g: Graph)
      requires View() == Collected(g) && CheckGraph(g) && RootsAsIn(g) && AckedAsIn(g) && StickyAsIn(g)
      ensures forall r :: r in g.results ==>
                (r in results <==> !r.gotServerAck || exists t :: t in activeTasks && t.result == r)
      ensures forall w :: w in g.wus ==> (w in workunits <==> exists r :: r in results && r.wup == w)
      ensures forall a :: a in g.avps ==>
                (a in appVersions <==>
                 || (exists r :: r in results && r.avp == a)
                 || forall b ::
                      b in g.avps && b.app == a.app && b.planClass == a.planClass && b.platform == a.platform ==>
                      b.versionNum <= a.versionNum)
      ensures forall f :: f in g.files ==>
                (f in fileInfos <==>
                 || (exists p :: p in projects && f in p.userFiles + p.projectFiles)
                 || (exists r :: r in results && f in r.outputFiles)
                 || (exists w :: w in workunits && f in w.inputFiles)
                 || (exists a :: a in appVersions && f in a.appFiles)
                 || (f.sticky && f.status >= 0))
      ensures forall x :: x in g.pfxs ==> (x in persFileXfers <==> x.fip in fileInfos)
      ensures forall y :: y in g.fxs ==> (y in fileXfers <==> y.fip in fileInfos)
    {
      hide Collected, CheckAll, Linked, KeptResults, KeptWus, KeptAvps;
      LeftInLists(g);
      forall r | r in g.results
        ensures r in results <==> !r.gotServerAck || exists t :: t in activeTasks && t.result == r
      {
        ResultStaysIff(g, r);
      }
      forall w | w in g.wus ensures w in workunits <==> exists r :: r in results && r.wup == w {
        WorkunitStaysIff(g, w);
      }
      forall a | a in g.avps
        ensures a in appVersions <==>
                  || (exists r :: r in results && r.avp == a)
                  || forall b ::
                       b in g.avps && b.app == a.app && b.planClass == a.planClass && b.platform == a.platform ==>
                       b.versionNum <= a.versionNum
      {
        VersionStaysIff(g, a);
      }
      forall f | f in g.files
        ensures f in fileInfos <==>
                  || (exists p :: p in projects && f in p.userFiles + p.projectFiles)
                  || (exists r :: r in results && f in r.outputFiles)
                  || (exists w :: w in workunits && f in w.inputFiles)
                  || (exists a :: a in appVersions && f in a.appFiles)
                  || (f.sticky && f.status >= 0)
      {
        UsedIsReachable(g, f);
      }
      forall x | x in g.pfxs ensures x in persFileXfers <==> x.fip in fileInfos {
        XferStaysIff(g, x);
      }
      forall y | y in g.fxs ensures y in fileXfers <==> y.fip in fileInfos {
        FileXferStaysIff(g, y);
      }
    }

    lemma LeftInLists(g: Graph)
      requires View() == Collected(g)
      ensures activeTasks == g.tasks && projects == g.projects
      ensures results == KeptResults(g) == Collected(g).results && workunits == KeptWus(g) == Collected(g).wus
      ensures appVersions == KeptAvps(g) == Collected(g).avps && fileInfos == Collected(g).files
      ensures persFileXfers == Collected(g).pfxs && fileXfers == Collected(g).fxs
    {
    }

    /** A collection does not touch what the records say. */
    method CollectRecorded(ghost g: Graph) returns (action: bool)
      requires g == View() && CheckGraph(g) && RootsAsIn(g) && AckedAsIn(g) && StickyAsIn(g)
      modifies `results, `workunits, `appVersions, `persFileXfers, `fileXfers, `fileInfos
      modifies fileInfos`refCnt, workunits`refCnt, appVersions`refCnt, AckedTasks(results)`taskState
      modifies persFileXfers`fxp, fileInfos`persFileXfer
      ensures View() == Collected(g) && RootsAsIn(g) && AckedAsIn(g) && StickyAsIn(g)
      ensures Counts(Refs(g), WupRefs(results), AvpRefs(results)) && Aborting(old(AckedTasks(results)))
      ensures action <==>
                |results| < |old(results)| || |workunits| < |old(workunits)| || |appVersions| < |old(appVersions)|
                          || |fileInfos| < |old(fileInfos)|
    {
      hide CheckGraph, Collected, RootsAsIn, AckedAsIn, StickyAsIn, Refs, Counts, Aborting;
      action := CollectGarbage();
    }

    /** `garbage_collect_always`: what is left is exactly what the graph says, it
        keeps the invariant, every reference count is the number of references,
        and the result tells whether a result, workunit, version or file was
        deleted. */
    method GarbageCollectAlways() returns (action: bool)
      requires Valid()
      modifies `results, `workunits, `appVersions, `persFileXfers, `fileXfers, `fileInfos
      modifies fileInfos`refCnt, workunits`refCnt, appVersions`refCnt, AckedTasks(results)`taskState
      modifies persFileXfers`fxp, fileInfos`persFileXfer
      ensures View() == Collected(old(View())) && Valid() && FewerThan(old(View()))
      ensures Counts(Refs(old(View())), WupRefs(results), AvpRefs(results)) && Aborting(old(AckedTasks(results)))
      ensures forall r :: r in old(results) ==>
                (r in results <==> !r.gotServerAck || exists t :: t in activeTasks && t.result == r)
      ensures forall w :: w in old(workunits) ==> (w in workunits <==> exists r :: r in results && r.wup == w)
      ensures forall a :: a in old(appVersions) ==>
                (a in appVersions <==>
                 || (exists r :: r in results && r.avp == a)
                 || forall b ::
                      b in old(appVersions) && b.app == a.app && b.planClass == a.planClass
                        && b.platform == a.platform ==>
                        b.versionNum <= a.versionNum)
      ensures forall f :: f in old(fileInfos) ==>
                (f in fileInfos <==>
                 || (exists p :: p in projects && f in p.userFiles + p.projectFiles)
                 || (exists r :: r in results && f in r.outputFiles)
                 || (exists w :: w in workunits && f in w.inputFiles)
                 || (exists a :: a in appVersions && f in a.appFiles)
                 || (f.sticky && f.status >= 0))
      ensures forall x :: x in old(persFileXfers) ==> (x in persFileXfers <==> x.fip in fileInfos)
      ensures forall y :: y in old(fileXfers) ==> (y in fileXfers <==> y.fip in fileInfos)
      ensures action <==>
                |results| < |old(results)| || |workunits| < |old(workunits)| || |appVersions| < |old(appVersions)|
                          || |fileInfos| < |old(fileInfos)|
    {
      hide *;
      ghost var g := View();
      GraphIsOwn(g);
      action := CollectRecorded(g);
      Passes(g);
      Fewer(g);
      StayAsRecorded(g);
    }

    lemma Passes(g: Graph)
      requires CheckGraph(g) && View() == Collected(g)
      ensures Valid()
    {
      CollectionPasses(g);
    }

    lemma GraphIsOwn(g: Graph)
      requires g == View() && Valid()
      ensures CheckGraph(g) && RootsAsIn(g) && AckedAsIn(g) && StickyAsIn(g)
      ensures results == g.results && workunits == g.wus && appVersions == g.avps && fileInfos == g.files
      ensures persFileXfers == g.pfxs && fileXfers == g.fxs && projects == g.projects
    {
    }

    /** A collection within a larger step that began with the lists of `g`. */
    method CollectWithin(ghost g: Graph) returns (action: bool)
      requires Valid() && FewerThan(g)
      modifies this, g.files, g.wus, g.avps, g.pfxs, g.tasks
      ensures View() == Collected(old(View())) && Valid() && FewerThan(g)
      ensures action <==>
                |results| < |old(results)| || |workunits| < |old(workunits)| || |appVersions| < |old(appVersions)|
                          || |fileInfos| < |old(fileInfos)|
    {
      assert forall i :: 0 <= i < |fileInfos| ==> fileInfos[i] in g.files;
      assert forall i :: 0 <= i < |workunits| ==> workunits[i] in g.wus;
      assert forall i :: 0 <= i < |appVersions| ==> appVersions[i] in g.avps;
      assert forall i :: 0 <= i < |persFileXfers| ==> persFileXfers[i] in g.pfxs;
      assert forall t :: t in AckedTasks(results) ==> t in g.tasks;
      action := GarbageCollectAlways();
    }

    /** A second collection right after the first deletes nothing and says so. */
    method GarbageCollectTwice() returns (second: bool)
      requires Valid()
      modifies this, fileInfos, workunits, appVersions, persFileXfers, activeTasks
      ensures !second && View() == Collected(old(View())) && Valid()
    {
      ghost var g := View();
      var first := CollectWithin(g);
      PassedIsIdempotent(g);
      second := CollectWithin(g);
    }

    // ---- resetting a project --------------------------------------------

    /** `abort_project`, once its processes are gone: its tasks are erased. */
    method AbortProject(project: Project, ghost keeps: set<ActiveTask>)
      requires forall t :: t in activeTasks ==> (t in keeps <==> t.result.project != project)
      modifies `activeTasks
      ensures activeTasks == Filter(old(activeTasks), keeps)
    {
      ghost var was, done: seq<ActiveTask>, kept: seq<ActiveTask> := activeTasks, [], [];
      var i: nat := 0;
      EraseStarts(was, keeps);
      while i < |activeTasks|
        invariant Erasing(was, keeps, done, activeTasks, kept) && i == |kept|
        decreases |was| - |done|
      {
        EraseNext(was, keeps, done, activeTasks, kept);
        done := done + [activeTasks[i]];
        if activeTasks[i].result.project == project {
          activeTasks := activeTasks[..i] + activeTasks[i + 1..];
        } else {
          kept := kept + [activeTasks[i]];
          i := i + 1;
        }
      }
      EraseEnds(was, keeps, done, activeTasks, kept);
    }

    /** Files of the project, or those whose transfer is gone, point at none. */
    static ghost predicate PointersGone(done: seq<PersFileXfer>, keeps: set<PersFileXfer>)
      reads (set x | x in done :: x.fip)`persFileXfer
    {
      forall x :: x in done && x !in keeps ==> x.fip.persFileXfer == null
    }

    /** Stop and remove the project's transfers. */
    method RemoveXfersOf(project: Project, ghost keeps: set<PersFileXfer>, ghost files: set<FileInfo>)
      requires Distinct(persFileXfers) && Distinct(fileXfers)
      requires forall x ::
                 x in persFileXfers ==> (x in keeps <==> x.fip.project != project) && (x in keeps || x.fip in files)
      modifies `persFileXfers, `fileXfers, persFileXfers`fxp, files`persFileXfer
      ensures persFileXfers == Filter(old(persFileXfers), keeps)
      ensures fileXfers == Filter(old(fileXfers), NotEnded(old(fileXfers), old(persFileXfers), keeps, old(FxpOf())))
      ensures XfersAsBefore(old(persFileXfers), old(|persFileXfers|), keeps, old(FxpOf()))
      ensures PointersGone(old(persFileXfers), keeps) && Distinct(fileXfers)
      ensures forall f :: f in files ==> f.persFileXfer == old(f.persFileXfer) || f.persFileXfer == null
    {
      hide Filter, NotEnded, XfersAsBefore, FxpOf, Distinct;
      ghost var was, done: seq<PersFileXfer>, kept: seq<PersFileXfer> := persFileXfers, [], [];
      ghost var fxs, fxpOf := fileXfers, FxpOf();
      var i: nat := 0;
      EraseStarts(was, keeps);
      XfersStart(keeps);
      while i < |persFileXfers|
        invariant Erasing(was, keeps, done, persFileXfers, kept) && i == |kept| && Distinct(fileXfers)
        invariant fileXfers == Filter(fxs, NotEnded(fxs, done, keeps, fxpOf))
                  && XfersAsBefore(was, |done|, keeps, fxpOf)
        invariant PointersGone(done, keeps)
        invariant forall f :: f in files ==> f.persFileXfer == old(f.persFileXfer) || f.persFileXfer == null
        decreases |was| - |done|
      {
        var keep := persFileXfers[i].fip.project != project;
        EraseNext(was, keeps, done, persFileXfers, kept);
        done, kept := NextXfer(i, keep, was, keeps, done, kept, fxs, fxpOf, files);
        i := if keep then i + 1 else i;
      }
      EraseEnds(was, keeps, done, persFileXfers, kept);
    }

    /** Mark the project's results as acked, so that the collection deletes them. */
    method AckResults(project: Project)
      modifies results`gotServerAck
      ensures forall r :: r in results ==> (r.gotServerAck <==> old(r.gotServerAck) || r.project == project)
    {
      for i := 0 to |results|
        invariant forall r :: r in results[..i] ==> (r.gotServerAck <==> old(r.gotServerAck) || r.project == project)
        invariant forall r :: r in results ==> r.gotServerAck == old(r.gotServerAck) || r in results[..i]
      {
        assert results[..i + 1] == results[..i] + [results[i]];
        if results[i].project == project {
          results[i].gotServerAck := true;
        }
      }
      assert results[..|results|] == results;
    }

    /** Clear flags so that sticky files get deleted. */
    method ClearSticky(project: Project)
      modifies fileInfos`sticky
      ensures forall f :: f in fileInfos ==> (f.sticky <==> old(f.sticky) && f.project != project)
    {
      for i := 0 to |fileInfos|
        invariant forall f :: f in fileInfos[..i] ==> (f.sticky <==> old(f.sticky) && f.project != project)
        invariant forall f :: f in fileInfos ==> f.sticky == old(f.sticky) || f in fileInfos[..i]
      {
        assert fileInfos[..i + 1] == fileInfos[..i] + [fileInfos[i]];
        if fileInfos[i].project == project {
          fileInfos[i].sticky := false;
        }
      }
      assert fileInfos[..|fileInfos|] == fileInfos;
    }

    method EraseVersionsOf(project: Project, ghost keeps: set<AppVersion>)
      requires forall a :: a in appVersions ==> (a in keeps <==> a.project != project)
      modifies `appVersions
      ensures appVersions == Filter(old(appVersions), keeps)
    {
      ghost var was, done: seq<AppVersion>, kept: seq<AppVersion> := appVersions, [], [];
      var i: nat := 0;
      EraseStarts(was, keeps);
      while i < |appVersions|
        invariant Erasing(was, keeps, done, appVersions, kept) && i == |kept|
        decreases |was| - |done|
      {
        EraseNext(was, keeps, done, appVersions, kept);
        done := done + [appVersions[i]];
        if appVersions[i].project == project {
          appVersions := appVersions[..i] + appVersions[i + 1..];
        } else {
          kept := kept + [appVersions[i]];
          i := i + 1;
        }
      }
      EraseEnds(was, keeps, done, appVersions, kept);
    }

    method EraseAppsOf(project: Project, ghost keeps: set<App>)
      requires forall a :: a in apps ==> (a in keeps <==> a.project != project)
      modifies `apps
      ensures apps == Filter(old(apps), keeps)
    {
      ghost var was, done: seq<App>, kept: seq<App> := apps, [], [];
      var i: nat := 0;
      EraseStarts(was, keeps);
      while i < |apps|
        invariant Erasing(was, keeps, done, apps, kept) && i == |kept|
        decreases |was| - |done|
      {
        EraseNext(was, keeps, done, apps, kept);
        done := done + [apps[i]];
        if apps[i].project == project {
          apps := apps[..i] + apps[i + 1..];
        } else {
          kept := kept + [apps[i]];
          i := i + 1;
        }
      }
      EraseEnds(was, keeps, done, apps, kept);
    }

    // The fields after the clearing, against the graph before.

    static ghost predicate AckedCleared(g: Graph, p: Project)
      reads g.results`gotServerAck
    {
      forall r :: r in g.results ==> (r.gotServerAck <==> r in g.acked || r.project == p)
    }

    static ghost predicate StickyCleared(g: Graph, p: Project)
      reads g.files`sticky, g.files`status
    {
      forall f :: f in g.files ==> (f.sticky && f.status >= 0 <==> f in g.sticky && f.project != p)
    }

    static ghost predicate PointersCleared(g: Graph, p: Project)
      reads g.files`persFileXfer
    {
      forall f :: f in g.files ==> f.persFileXfer == if f in g.xferOf && f.project != p then g.xferOf[f] else null
    }

    ghost predicate RootsCleared(g: Graph, p: Project)
      reads `projects, projects`userFiles, projects`projectFiles
    {
      && projects == g.projects && (forall o :: o in g.rootFiles ==> o in projects)
      && forall o :: o in projects ==>
           o in g.rootFiles && o.userFiles + o.projectFiles == if o == p then [] else g.rootFiles[o]
    }

    static ghost predicate Keyed(g: Graph) {
      && (forall r :: r in g.acked ==> r in g.results) && (forall f :: f in g.sticky ==> f in g.files)
      && (forall f :: f in g.xferOf ==> f in g.files) && (forall x :: x in g.fxpOf ==> x in g.pfxs)
    }

    lemma ViewIsCleared(g: Graph, p: Project)
      requires Keyed(g) && RootsCleared(g, p) && AckedCleared(g, p) && StickyCleared(g, p) && PointersCleared(g, p)
      requires FxpsAsIn(g, persFileXfers)
      requires ListsCleared(g, p)
      ensures View() == Cleared(g, p)
    {
      var c := Cleared(g, p);
      FilterMembers(g.pfxs, OthersPfxs(g, p));
      assert RootFiles() == c.rootFiles;
      assert Acked() == c.acked;
      assert StickyFiles() == c.sticky;
      assert XferOf() == c.xferOf;
      assert FxpOf() == c.fxpOf;
    }

    static ghost function FilesOfProject(g: Graph, p: Project): set<FileInfo> {
      set f | f in g.files && f.project == p
    }

    static ghost predicate OwnXfers(xs: seq<PersFileXfer>, project: Project, keeps: set<PersFileXfer>,
                                    files: set<FileInfo>)
    {
      forall x :: x in xs ==> (x in keeps <==> x.fip.project != project) && (x in keeps || x.fip in files)
    }

    lemma XfersAreOwn(g: Graph, p: Project)
      requires CheckGraph(g)
      ensures OwnXfers(g.pfxs, p, OthersPfxs(g, p), FilesOfProject(g, p)) && Distinct(g.pfxs) && Distinct(g.fxs)
    {
      forall x | x in g.pfxs ensures x in OthersPfxs(g, p) || x.fip in FilesOfProject(g, p) {
        assert CheckPersFileXfer(g, x);
      }
    }

    lemma FxpOfIs(g: Graph)
      requires CheckGraph(g) && FxpsAsIn(g, g.pfxs) && persFileXfers == g.pfxs
      ensures FxpOf() == g.fxpOf
    {
    }

    lemma ClearedXfersAre(g: Graph, p: Project)
      ensures Filter(g.fxs, NotEnded(g.fxs, g.pfxs, OthersPfxs(g, p), g.fxpOf)) == Cleared(g, p).fxs
      ensures Filter(g.pfxs, OthersPfxs(g, p)) == Cleared(g, p).pfxs
    {
      var keeps := OthersPfxs(g, p);
      FilterSame(g.fxs, NotEnded(g.fxs, g.pfxs, keeps, g.fxpOf), KeptFxSet(g, keeps));
    }

    /** Each pointer is what the graph says, or has been cleared with its transfer. */
    lemma PointersAre(g: Graph, p: Project)
      requires CheckGraph(g) && PointersGone(g.pfxs, OthersPfxs(g, p))
      requires forall f ::
                 f in g.files && f.project != p ==> f.persFileXfer == if f in g.xferOf then g.xferOf[f] else null
      requires forall f :: f in g.files && f.project == p ==>
                 f.persFileXfer == (if f in g.xferOf then g.xferOf[f] else null) || f.persFileXfer == null
      ensures PointersCleared(g, p)
    {
      forall f | f in g.files && f.project == p ensures f.persFileXfer == null {
        assert CheckFileInfo(g, f);
      }
    }

    lemma FxpsKept(g: Graph, p: Project)
      requires persFileXfers == Filter(g.pfxs, OthersPfxs(g, p))
               && XfersAsBefore(g.pfxs, |g.pfxs|, OthersPfxs(g, p), g.fxpOf)
      ensures FxpsAsIn(g, persFileXfers)
    {
      FilterMembers(g.pfxs, OthersPfxs(g, p));
      forall x | x in persFileXfers ensures x.fxp == if x in g.fxpOf then g.fxpOf[x] else null {
        assert x in g.pfxs && x in OthersPfxs(g, p);
      }
    }

    /** Transfers of the project, by the graph. */
    method ClearXfers(project: Project, ghost g: Graph)
      requires CheckGraph(g) && FxpsAsIn(g, g.pfxs) && persFileXfers == g.pfxs && fileXfers == g.fxs
               && fileInfos == g.files
      requires forall f :: f in g.files ==> f.persFileXfer == if f in g.xferOf then g.xferOf[f] else null
      modifies `persFileXfers, `fileXfers, persFileXfers`fxp, fileInfos`persFileXfer
      ensures persFileXfers == Cleared(g, project).pfxs && fileXfers == Cleared(g, project).fxs
      ensures PointersCleared(g, project) && FxpsAsIn(g, persFileXfers)
    {
      hide CheckGraph, Cleared;
      XfersAreOwn(g, project);
      FxpOfIs(g);
      RemoveXfersOf(project, OthersPfxs(g, project), FilesOfProject(g, project));
      ClearedXfersAre(g, project);
      PointersAre(g, project);
      FxpsKept(g, project);
    }

    /** Marks on results and files, and the project's own file lists. */
    method ClearMarks(project: Project, ghost g: Graph)
      requires project in projects && RootsAsIn(g) && AckedAsIn(g) && StickyAsIn(g) && results == g.results
               && fileInfos == g.files
      modifies results`gotServerAck, fileInfos`sticky, project`userFiles, project`projectFiles
      ensures RootsCleared(g, project) && AckedCleared(g, project) && StickyCleared(g, project)
    {
      AckResults(project);
      project.userFiles := [];
      project.projectFiles := [];
      ClearSticky(project);
    }

    /** The lists that a clearing changes, and those that it leaves. */
    ghost predicate ListsCleared(g: Graph, p: Project)
      reads this
    {
      var c := Cleared(g, p);
      && apps == c.apps && fileInfos == c.files && appVersions == c.avps && workunits == c.wus && results == c.results
      && activeTasks == c.tasks && persFileXfers == c.pfxs && fileXfers == c.fxs
    }

    method ClearLists(project: Project, ghost g: Graph)
      requires CheckGraph(g) && ListsFrom(g) && apps == g.apps && activeTasks == g.tasks && FxpsAsIn(g, g.pfxs)
      requires forall f :: f in g.files ==> f.persFileXfer == if f in g.xferOf then g.xferOf[f] else null
      modifies `activeTasks, `persFileXfers, `fileXfers, persFileXfers`fxp, fileInfos`persFileXfer
      ensures ListsCleared(g, project) && PointersCleared(g, project) && FxpsAsIn(g, persFileXfers)
    {
      hide CheckGraph, PointersCleared, FxpsAsIn, Filter;
      AbortProject(project, OthersTasks(g, project));
      ClearXfers(project, g);
    }

    method ClearListsOnly(project: Project, ghost g: Graph)
      requires CheckGraph(g) && ListsFrom(g) && apps == g.apps && activeTasks == g.tasks && FxpsAsIn(g, g.pfxs)
      requires forall f :: f in g.files ==> f.persFileXfer == if f in g.xferOf then g.xferOf[f] else null
      requires RootsAsIn(g) && AckedAsIn(g) && StickyAsIn(g)
      modifies `activeTasks, `persFileXfers, `fileXfers, persFileXfers`fxp, fileInfos`persFileXfer
      ensures ListsCleared(g, project) && PointersCleared(g, project) && FxpsAsIn(g, persFileXfers)
      ensures RootsAsIn(g) && AckedAsIn(g) && StickyAsIn(g)
    {
      hide *;
      ClearLists(project, g);
    }

    lemma ListsNow(g: Graph)
      requires ListsFrom(g)
      ensures results == g.results && fileInfos == g.files
    {
    }

    method ClearFields(project: Project, ghost g: Graph)
      requires CheckGraph(g) && ListsFrom(g) && apps == g.apps && activeTasks == g.tasks && FxpsAsIn(g, g.pfxs)
      requires forall f :: f in g.files ==> f.persFileXfer == if f in g.xferOf then g.xferOf[f] else null
      requires project in projects && RootsAsIn(g) && AckedAsIn(g) && StickyAsIn(g)
      modifies `activeTasks, `persFileXfers, `fileXfers, persFileXfers`fxp, fileInfos`persFileXfer
      modifies results`gotServerAck, fileInfos`sticky, project`userFiles, project`projectFiles
      ensures ListsCleared(g, project) && PointersCleared(g, project) && FxpsAsIn(g, persFileXfers)
      ensures RootsCleared(g, project) && AckedCleared(g, project) && StickyCleared(g, project)
    {
      hide *;
      ListsNow(g);
      ClearListsOnly(project, g);
      ClearMarks(project, g);
    }

    lemma KeyedNow(g: Graph)
      requires g == View() && CheckGraph(g)
      ensures Keyed(g)
    {
    }

    /** Everything before the first collection. */
    method ClearProject(project: Project, ghost g: Graph)
      requires Valid() && g == View() && project in projects
      modifies `activeTasks, `persFileXfers, `fileXfers, persFileXfers`fxp, fileInfos`persFileXfer
      modifies results`gotServerAck, fileInfos`sticky, project`userFiles, project`projectFiles
      ensures View() == Cleared(g, project)
    {
      FieldsNow(g);
      KeyedNow(g);
      ClearFields(project, g);
      ViewIsCleared(g, project);
    }

    /** Remove the project's applications and their versions. */
    method RemoveApps(project: Project, ghost h: Graph)
      requires h == View()
      modifies `apps, `appVersions
      ensures View() == WithoutApps(h, project)
    {
      hide XferOf, RootFiles;
      EraseVersionsOf(project, OthersAvps(h, project));
      EraseAppsOf(project, OthersApps(h, project));
    }

    lemma FewerCleared(g: Graph, p: Project)
      requires View() == Cleared(g, p)
      ensures FewerThan(g)
    {
      ClearedMembers(g, p);
    }

    /** The first collection of a reset. */
    method ClearAndCollect(project: Project, ghost g: Graph)
      requires Valid() && g == View() && Local(g) && project in projects
      modifies this, g.files, g.wus, g.avps, g.pfxs, g.tasks, g.results, project
      ensures View() == Collected(Cleared(g, project)) && Valid() && FewerThan(g)
    {
      ClearProject(project, g);
      ResetPasses(g, project);
      FewerCleared(g, project);
      var action := CollectWithin(g);
    }

    /** The second one, without the project's applications. */
    method DropAppsAndCollect(project: Project, ghost g: Graph)
      requires FewerThan(g) && CheckGraph(WithoutApps(View(), project))
      modifies this, g.files, g.wus, g.avps, g.pfxs, g.tasks
      ensures View() == Collected(WithoutApps(old(View()), project)) && Valid()
    {
      WithoutAppsMembers(View(), project);
      RemoveApps(project, View());
      var action := CollectWithin(g);
    }

    /** What a reset leaves of the project. */
    lemma LeftByReset(g: Graph, p: Project, dropApps: bool)
      requires CheckGraph(g) && Local(g) && View() == Reset(g, p, dropApps)
      ensures forall r :: r in results ==> r.project != p
      ensures forall w :: w in workunits ==> w.project != p
      ensures forall t :: t in activeTasks ==> t.result.project != p
      ensures forall x :: x in persFileXfers ==> x.fip.project != p
      ensures forall y :: y in fileXfers ==> y.fip.project != p
      ensures dropApps ==>
                && (forall a :: a in apps ==> a.project != p) && (forall a :: a in appVersions ==> a.project != p)
                && (forall f :: f in fileInfos ==> f.project != p)
      ensures !dropApps ==> apps == g.apps
      ensures !dropApps ==>
                forall a :: a in g.avps && a.project == p ==>
                  (a in appVersions <==>
                   forall b ::
                     b in g.avps && b.app == a.app && b.planClass == a.planClass && b.platform == a.platform ==>
                       b.versionNum <= a.versionNum)
    {
      hide Reset, Local, CheckAll, Linked;
      if dropApps {
        ResetLeavesNothing(g, p);
      } else {
        ResetKeepsApps(g, p);
        forall a | a in g.avps && a.project == p
          ensures a in appVersions <==>
                    forall b ::
                      b in g.avps && b.app == a.app && b.planClass == a.planClass && b.platform == a.platform ==>
                        b.versionNum <= a.versionNum
        {
          ResetKeepsNewest(g, p, a);
        }
      }
    }

    /** `reset_project`: exactly the reset of the graph, and the invariant holds
        afterwards.  Of the project nothing is left, or, if its applications stay,
        nothing but these and their newest versions; `ResetSparesOthers` says what it
        means for the other projects. */
    method ResetProject(project: Project, detaching: bool)
      requires Valid() && Local(View()) && project in projects
      modifies this, fileInfos, workunits, appVersions, persFileXfers, activeTasks, results, project
      ensures View() == Reset(old(View()), project, !project.anonymousPlatform || detaching) && Valid()
      ensures forall r :: r in results ==> r.project != project
      ensures forall w :: w in workunits ==> w.project != project
      ensures forall t :: t in activeTasks ==> t.result.project != project
      ensures forall x :: x in persFileXfers ==> x.fip.project != project
      ensures forall y :: y in fileXfers ==> y.fip.project != project
      ensures !project.anonymousPlatform || detaching ==>
                && (forall a :: a in apps ==> a.project != project)
                && (forall a :: a in appVersions ==> a.project != project)
                && (forall f :: f in fileInfos ==> f.project != project)
      ensures project.anonymousPlatform && !detaching ==> apps == old(apps)
      ensures project.anonymousPlatform && !detaching ==>
                forall a :: a in old(appVersions) && a.project == project ==>
                  (a in appVersions <==>
                   forall b ::
                     b in old(appVersions) && b.app == a.app && b.planClass == a.planClass
                       && b.platform == a.platform ==>
                       b.versionNum <= a.versionNum)
    {
      hide *;
      ghost var g := View();
      ListsAreOf(g);
      ResetPasses(g, project);
      ClearAndCollect(project, g);
      if !project.anonymousPlatform || detaching {
        DropAppsAndCollect(project, g);
      }
      ResetIs(g, project);
      LeftByReset(g, project, !project.anonymousPlatform || detaching);
    }

    lemma ListsAreOf(g: Graph)
      requires g == View() && Valid()
      ensures CheckGraph(g) && apps == g.apps && appVersions == g.avps && fileInfos == g.files && workunits == g.wus
      ensures persFileXfers == g.pfxs && activeTasks == g.tasks && results == g.results
    {
    }

    lemma ResetIs(g: Graph, p: Project)
      ensures Reset(g, p, false) == Collected(Cleared(g, p))
      ensures Reset(g, p, true) == Collected(WithoutApps(Collected(Cleared(g, p)), p))
    {
    }
  }

  /** `check_all`, and what else the client keeps true: pointers agree, each
      file and transfer is listed once, and a result has at most one task. */
  ghost predicate CheckGraph(g: Graph) {
    CheckAll(g) && Linked(g) && Distinct(g.files) && Distinct(g.pfxs) && Distinct(g.fxs) && OneTaskPerResult(g.tasks)
  }

  /** A collection keeps all that. */
  lemma CollectionPasses(g: Graph)
    requires CheckGraph(g)
    ensures CheckGraph(Collected(g))
  {
    CollectionIsSafe(g);
    FilterDistinct(g.files, Used(g));
    FilterDistinct(g.pfxs, KeptPfxSet(g));
    FilterDistinct(g.fxs, KeptFxSet(g, KeptPfxSet(g)));
  }

  /** Every stage of a reset keeps the invariant. */
  lemma ResetPasses(g: Graph, p: Project)
    requires CheckGraph(g) && Local(g)
    ensures CheckGraph(Cleared(g, p)) && CheckGraph(WithoutApps(Collected(Cleared(g, p)), p))
  {
    var c := Cleared(g, p);
    ResetStages(g, p);
    FilterDistinct(g.pfxs, OthersPfxs(g, p));
    FilterDistinct(g.fxs, KeptFxSet(g, OthersPfxs(g, p)));
    FilterTasks(g.tasks, OthersTasks(g, p));
    CollectionPasses(c);
  }

  lemma PassedIsIdempotent(g: Graph)
    requires CheckGraph(g)
    ensures Collected(Collected(g)) == Collected(g)
  {
    CollectionIsIdempotent(g);
  }

  /** Transfers in progress that no dropped transfer among `dropped` owns. */
  ghost function NotEnded(fxs: seq<FileXfer>, seen: seq<PersFileXfer>, keeps: set<PersFileXfer>,
                          fxpOf: map<PersFileXfer, FileXfer>): set<FileXfer>
  {
    set y | y in fxs && !exists x :: x in seen && x !in keeps && x in fxpOf && fxpOf[x] == y
  }

  lemma NotEndedNext(fxs: seq<FileXfer>, done: seq<PersFileXfer>, x: PersFileXfer, keeps: set<PersFileXfer>,
                     fxpOf: map<PersFileXfer, FileXfer>, fxp: FileXfer?)
    requires fxp == if x in fxpOf then fxpOf[x] else null
    ensures var now, next := Filter(fxs, NotEnded(fxs, done, keeps, fxpOf)),
            Filter(fxs, NotEnded(fxs, done + [x], keeps, fxpOf));
            next == if x in keeps || fxp == null then now else Filter(now, Without<FileXfer>(now, fxp))
  {
    var a, b := NotEnded(fxs, done, keeps, fxpOf), NotEnded(fxs, done + [x], keeps, fxpOf);
    var now := Filter(fxs, a);
    if x in keeps || fxp == null {
      FilterSame(fxs, a, b);
    } else {
      FilterMembers(fxs, a);
      forall y | y in fxs ensures y in b <==> y in a && y in Without<FileXfer>(now, fxp) {
        assert x in done + [x];
        if z :| z in done && z !in keeps && z in fxpOf && fxpOf[z] == y {
          assert z in done + [x];
        }
      }
      FilterBoth(fxs, a, Without<FileXfer>(now, fxp), b);
    }
  }

  /** Every version of the original list is still there, or a newer one is: this
      is why erasing while scanning does not make the outcome depend on the order. */
  ghost predicate Covering(was: seq<AppVersion>, now: seq<AppVersion>) {
    && (forall a :: a in now ==> a in was)
    && (forall a :: a in was ==> a in now || Superseded(a, now))
  }

  lemma SupersededNow(was: seq<AppVersion>, now: seq<AppVersion>, a: AppVersion)
    requires Covering(was, now)
    ensures Superseded(a, now) <==> Superseded(a, was)
  {
    if b :| b in was && Supersedes(b, a) {
      if b !in now {
        var c :| c in now && Supersedes(c, b);
        assert Supersedes(c, a);
      }
    }
  }

  lemma CoveringNext(was: seq<AppVersion>, now: seq<AppVersion>, i: nat)
    requires Covering(was, now) && i < |now| && Superseded(now[i], now)
    ensures Covering(was, now[..i] + now[i + 1..])
  {
    var next := now[..i] + now[i + 1..];
    var c :| c in now && Supersedes(c, now[i]);
    forall a | a in now && a != now[i] ensures a in next {
      var k :| 0 <= k < |now| && now[k] == a;
      assert next[if k < i then k else k - 1] == a;
    }
    forall a | a in was ensures a in next || Superseded(a, next) {
      if a == now[i] {
        assert c in next;
      } else if a !in now {
        var b :| b in now && Supersedes(b, a);
        assert b in next || Supersedes(c, a);
      }
    }
  }
}
