/** Whole runs of project replication: several projects of a guest share one sandbox, the host may
    refuse a turn, edits come back, and the client may lose its records. */
module ProjectRuns {
  import opened Options
  import opened ProjectSync

  // -- Runs ------------------------------------------------------------------

  /** The sandbox of a guest and provider, and the record the client keeps of each project root. */
  datatype Remote = Remote(disk: Files, records: map<string, map<Path, int>>)

  /** A sync of one project that the host applies, one it refuses, an edit of the remote agent written
      back, or a new catalog, for which the client makes new providers with no records. */
  datatype SyncStep =
    | Applied(root: string, scan: seq<ScannedFile>)
    | Refused(root: string, scan: seq<ScannedFile>)
    | Edited(root: string, path: Path, content: string, now: int)
    | NewCatalog

  function Record(r: Remote, root: string): map<Path, int> {
    if root in r.records then r.records[root] else map[]
  }

  function StepRemote(r: Remote, s: SyncStep): Remote {
    match s
    case Applied(root, scan) =>
      Remote(Synced(r.disk, Record(r, root), scan), r.records[root := Mtimes(scan)])
    case Refused(root, scan) => r.(records := r.records[root := Mtimes(scan)])
    case Edited(root, path, content, now) =>
      Remote(r.disk[path := content],
             if root in r.records then r.records[root := r.records[root][path := now]] else r.records)
    case NewCatalog => r.(records := map[])
  }

  function RunSteps(steps: seq<SyncStep>): Remote {
    if steps == [] then Remote(map[], map[]) else StepRemote(RunSteps(steps[..|steps| - 1]), steps[|steps| - 1])
  }

  function Contents(scan: seq<ScannedFile>): Files {
    if scan == [] then map[] else Contents(scan[..|scan| - 1])[scan[|scan| - 1].path := scan[|scan| - 1].content]
  }

  /** What a step says about one path: nothing, or its new content, or that it is gone. */
  datatype News = Nothing | IsNow(file: Option<string>)

  function ScanNews(sent: map<Path, int>, scan: seq<ScannedFile>, p: Path): News {
    if p in Mtimes(scan) then
      if p in sent && sent[p] == Mtimes(scan)[p] then Nothing else IsNow(FileIn(Contents(scan), p))
    else if p in sent then IsNow(None) else Nothing
  }

  /** What a step tells the client's record of a project. */
  function ClientNews(r: Remote, s: SyncStep, root: string, p: Path): News {
    match s
    case Edited(g, path, content, _) =>
      if g == root && path == p && g in r.records then IsNow(Some(content)) else Nothing
    case NewCatalog => IsNow(None)
    case _ => if s.root == root then ScanNews(Record(r, root), s.scan, p) else Nothing
  }

  /** What it tells the host, whichever project it is about. */
  function HostNews(r: Remote, s: SyncStep, p: Path): News {
    match s
    case Applied(root, scan) => ScanNews(Record(r, root), scan, p)
    case Edited(_, path, content, _) => if path == p then IsNow(Some(content)) else Nothing
    case _ => Nothing
  }

  /** The content of a path of a project according to its record's last news. */
  function ClientAt(steps: seq<SyncStep>, root: string, p: Path): Option<string> {
    if steps == [] then None else
      var init, last := steps[..|steps| - 1], steps[|steps| - 1];
      var news := ClientNews(RunSteps(init), last, root, p);
      if news.IsNow? then news.file else ClientAt(init, root, p)
  }

  /** The content of a path according to the last news the host was told. */
  function HostAt(steps: seq<SyncStep>, p: Path): Option<string> {
    if steps == [] then None else
      var init, last := steps[..|steps| - 1], steps[|steps| - 1];
      var news := HostNews(RunSteps(init), last, p);
      if news.IsNow? then news.file else HostAt(init, p)
  }

  /** A recorded mtime stands for the content last heard of. */
  ghost predicate HonestScan(before: seq<SyncStep>, root: string, scan: seq<ScannedFile>) {
    && UniquePaths(scan)
    && forall k :: 0 <= k < |scan| && !Changed(scan[k], Record(RunSteps(before), root)) ==>
         ClientAt(before, root, scan[k].path) == Some(scan[k].content)
  }

  ghost predicate Honest(before: seq<SyncStep>, s: SyncStep) {
    match s
    case Edited(_, path, _, _) => Accepted(path)
    case NewCatalog => true
    case _ => HonestScan(before, s.root, s.scan)
  }

  ghost predicate HonestSteps(steps: seq<SyncStep>) {
    forall i :: 0 <= i < |steps| ==> Honest(steps[..i], steps[i])
  }

  lemma {:induction false} ContentsAt(scan: seq<ScannedFile>)
    requires UniquePaths(scan)
    ensures Contents(scan).Keys == Paths(scan)
    ensures forall k :: 0 <= k < |scan| ==> Contents(scan)[scan[k].path] == scan[k].content
  {
    if scan != [] {
      ContentsAt(scan[..|scan| - 1]);
      PathsSnoc(scan[..|scan| - 1], scan[|scan| - 1]);
      assert scan == scan[..|scan| - 1] + [scan[|scan| - 1]];
    }
  }

  /** One sync does to each accepted path what its news says, and nothing to the others. */
  lemma SyncedAt(disk: Files, sent: map<Path, int>, scan: seq<ScannedFile>, p: Path)
    requires UniquePaths(scan)
    ensures var news := ScanNews(sent, scan, p);
            FileIn(Synced(disk, sent, scan), p) ==
            if Accepted(p) && news.IsNow? then news.file else FileIn(disk, p)
  {
    var kept := map q | q in disk && !(q in sent && q !in Paths(scan) && Accepted(q)) :: disk[q];
    WritesAt(kept, scan, sent);
    ContentsAt(scan);
    MtimesDomain(scan);
    hide AfterWrites, ChangedFiles, Mtimes, Contents, UniquePaths, Accepted;
    if p in Paths(scan) {
      var k :| 0 <= k < |scan| && scan[k].path == p;
      assert Mtimes(scan)[scan[k].path] == scan[k].mtime;
      assert Changed(scan[k], sent) <==> !(p in sent && sent[p] == Mtimes(scan)[p]);
    }
  }

  lemma HonestPrefix(steps: seq<SyncStep>)
    requires steps != [] && HonestSteps(steps)
    ensures HonestSteps(steps[..|steps| - 1]) && Honest(steps[..|steps| - 1], steps[|steps| - 1])
  {
    hide Honest;
    var init := steps[..|steps| - 1];
    forall i | 0 <= i < |init| ensures Honest(init[..i], init[i]) {
      assert init[i] == steps[i] && init[..i] == steps[..i];
    }
    assert steps[|init|] == steps[|steps| - 1];
  }

  /** The sandbox holds, of every accepted path, what the host was last told. */
  lemma {:induction false} HostHoldsItsNews(steps: seq<SyncStep>, p: Path)
    requires HonestSteps(steps)
    ensures FileIn(RunSteps(steps).disk, p) == if Accepted(p) then HostAt(steps, p) else None
  {
    if steps != [] {
      var init, last := steps[..|steps| - 1], steps[|steps| - 1];
      HonestPrefix(steps);
      HostHoldsItsNews(init, p);
      hide Synced, Mtimes, Accepted, ScanNews, HonestSteps;
      if last.Applied? {
        SyncedAt(RunSteps(init).disk, Record(RunSteps(init), last.root), last.scan, p);
      }
    }
  }

  /** A record has exactly the paths its project has, by the last news of them. */
  lemma {:induction false} RecordHasClientPaths(steps: seq<SyncStep>, root: string, p: Path)
    requires HonestSteps(steps)
    ensures p in Record(RunSteps(steps), root) <==> ClientAt(steps, root, p).Some?
  {
    if steps != [] {
      var init, last := steps[..|steps| - 1], steps[|steps| - 1];
      HonestPrefix(steps);
      RecordHasClientPaths(init, root, p);
      hide Synced, Mtimes, Contents, Accepted, HonestSteps;
      if last.Applied? || last.Refused? {
        MtimesDomain(last.scan);
        ContentsAt(last.scan);
      }
    }
  }

  /** After a scan, applied or refused, the last news of every path of the project is what it holds. */
  lemma ScanIsNews(steps: seq<SyncStep>, p: Path)
    requires steps != [] && HonestSteps(steps) && (steps[|steps| - 1].Applied? || steps[|steps| - 1].Refused?)
    ensures ClientAt(steps, steps[|steps| - 1].root, p) == FileIn(Contents(steps[|steps| - 1].scan), p)
  {
    var init, last := steps[..|steps| - 1], steps[|steps| - 1];
    var sent, scan := Record(RunSteps(init), last.root), last.scan;
    HonestPrefix(steps);
    RecordHasClientPaths(init, last.root, p);
    MtimesDomain(scan);
    ContentsAt(scan);
    hide RunSteps, Synced, Mtimes, Contents, Accepted, HonestSteps, UniquePaths;
    if p in Paths(scan) {
      var k :| 0 <= k < |scan| && scan[k].path == p;
      assert Mtimes(scan)[scan[k].path] == scan[k].mtime && Contents(scan)[scan[k].path] == scan[k].content;
      assert Changed(scan[k], sent) <==> !(p in sent && sent[p] == Mtimes(scan)[p]);
    }
  }

  lemma TargetIn(scan: seq<ScannedFile>, p: Path)
    requires UniquePaths(scan)
    ensures FileIn(Target(scan), p) == if Accepted(p) then FileIn(Contents(scan), p) else None
  {
    TargetAt(scan);
    ContentsAt(scan);
    hide Accepted, Contents, Target;
    if p in Paths(scan) {
      var k :| 0 <= k < |scan| && scan[k].path == p;
      assert Contents(scan)[scan[k].path] == scan[k].content;
    }
  }

  lemma SameFiles(a: Files, b: Files)
    requires forall p :: FileIn(a, p) == FileIn(b, p)
    ensures a == b
  {
    assert forall p :: p in a <==> FileIn(a, p).Some?;
    assert forall p :: p in b <==> FileIn(b, p).Some?;
    forall p | p in a ensures a[p] == b[p] {
      assert FileIn(a, p) == FileIn(b, p);
    }
  }

  /** Over any run of syncs of several projects, refused turns, edits written back and new catalogs, a
      sync brings the sandbox to its scan if and only if of every accepted path the host was last told
      what the project's record was: nothing new was in a refused turn, nothing is left from before the
      last catalog, and no other project put anything else there. */
  lemma MixedRunConvergesIff(steps: seq<SyncStep>)
    requires steps != [] && HonestSteps(steps) && steps[|steps| - 1].Applied?
    ensures RunSteps(steps).disk == Target(steps[|steps| - 1].scan) <==>
            forall p :: Accepted(p) ==> HostAt(steps, p) == ClientAt(steps, steps[|steps| - 1].root, p)
  {
    var r, root, scan := RunSteps(steps), steps[|steps| - 1].root, steps[|steps| - 1].scan;
    HonestPrefix(steps);
    forall p
      ensures FileIn(r.disk, p) == if Accepted(p) then HostAt(steps, p) else None
      ensures FileIn(Target(scan), p) == if Accepted(p) then ClientAt(steps, root, p) else None
    {
      HostHoldsItsNews(steps, p);
      ScanIsNews(steps, p);
      TargetIn(scan, p);
    }
    hide RunSteps, HostAt, ClientAt, Target, Accepted, FileIn;
    if forall p :: Accepted(p) ==> HostAt(steps, p) == ClientAt(steps, root, p) {
      SameFiles(r.disk, Target(scan));
    }
  }

  /** One project, no refused turn and no new catalog: every sync converges, whatever edits are written
      back after the first. */
  lemma {:induction false} NothingRefusedNothingMissed(steps: seq<SyncStep>, root: string, p: Path)
    requires forall k :: 0 <= k < |steps| ==> (steps[k].Applied? || steps[k].Edited?) && steps[k].root == root
    requires steps != [] ==> steps[0].Applied?
    ensures HostAt(steps, p) == ClientAt(steps, root, p)
    ensures steps != [] ==> root in RunSteps(steps).records
  {
    if steps != [] {
      hide Synced, Mtimes, ScanNews;
      NothingRefusedNothingMissed(steps[..|steps| - 1], root, p);
    }
  }

  // -- What stays behind -----------------------------------------------------

  /** The first sync of a project under a new catalog, or of a second project, converges if and only if
      the project has every path that is in the sandbox already, as it can delete none of them. */
  lemma FirstSyncConvergesIff(disk: Files, scan: seq<ScannedFile>)
    requires UniquePaths(scan) && forall p :: p in disk ==> Accepted(p)
    ensures Synced(disk, map[], scan) == Target(scan) <==> disk.Keys <= Paths(scan)
  {
    hide Accepted, Synced, Target;
    SyncConvergesIff(disk, map[], scan);
  }

  /** The step does not mention the path. */
  ghost predicate Silent(s: SyncStep, p: Path) {
    match s
    case Edited(_, path, _, _) => path != p
    case NewCatalog => true
    case _ => UniquePaths(s.scan) && p !in Paths(s.scan)
  }

  predicate Unrecorded(r: Remote, p: Path) {
    forall root :: root in r.records ==> p !in r.records[root]
  }

  lemma SilentStepLeaves(r: Remote, s: SyncStep, p: Path)
    requires Silent(s, p) && Unrecorded(r, p)
    ensures Unrecorded(StepRemote(r, s), p) && FileIn(StepRemote(r, s).disk, p) == FileIn(r.disk, p)
  {
    hide Synced, Mtimes, Accepted, UniquePaths;
    if s.Applied? || s.Refused? {
      MtimesDomain(s.scan);
      SyncedAt(r.disk, Record(r, s.root), s.scan, p);
    }
  }

  /** What is in the sandbox when a new catalog comes stays there as it is for as long as no project
      has its path, through any number of syncs, edits and catalogs: deleting it on the client before
      the next sync goes unnoticed, and no sync converges while it is there. */
  lemma {:induction false} LeftBehindForGood(before: seq<SyncStep>, later: seq<SyncStep>, p: Path)
    requires forall k :: 0 <= k < |later| ==> Silent(later[k], p)
    ensures var r := RunSteps(before + [NewCatalog] + later);
            && FileIn(r.disk, p) == FileIn(RunSteps(before).disk, p)
            && Unrecorded(r, p)
            && (p in RunSteps(before).disk && later != [] && later[|later| - 1].Applied? ==>
                  r.disk != Target(later[|later| - 1].scan))
  {
    hide RunSteps, Silent, Target;
    if later == [] {
      assert before + [NewCatalog] + later == before + [NewCatalog];
      LastStep(before + [NewCatalog] + later, before, NewCatalog);
    } else {
      hide StepRemote, Unrecorded;
      var init, last := later[..|later| - 1], later[|later| - 1];
      assert before + [NewCatalog] + later == before + [NewCatalog] + init + [last];
      LeftBehindForGood(before, init, p);
      LastStep(before + [NewCatalog] + later, before + [NewCatalog] + init, last);
      SilentStepLeaves(RunSteps(before + [NewCatalog] + init), last, p);
      NotInTarget(last, p);
    }
  }

  lemma NotInTarget(s: SyncStep, p: Path)
    requires Silent(s, p)
    ensures s.Applied? ==> p !in Target(s.scan)
  {
    if s.Applied? {
      TargetAt(s.scan);
    }
  }

  lemma LastStep(steps: seq<SyncStep>, init: seq<SyncStep>, s: SyncStep)
    requires steps == init + [s]
    ensures RunSteps(steps) == StepRemote(RunSteps(init), s)
  {
    assert steps[..|steps| - 1] == init;
  }

  // -- A refused first turn --------------------------------------------------

  lemma OneFile(f: ScannedFile)
    ensures Mtimes([f]) == map[f.path := f.mtime] && Paths([f]) == {f.path}
    ensures Accepted(f.path) ==> Target([f]) == map[f.path := f.content]
    ensures ChangedFiles([f], map[f.path := f.mtime]) == []
  {
    assert [f][..0] == [] && [f][0] == f;
    assert Mtimes([]) == map[] && Target([]) == map[] && ChangedFiles([], map[f.path := f.mtime]) == [];
    hide Accepted;
  }

  lemma SameAgain(f: ScannedFile)
    ensures Synced(map[], map[f.path := f.mtime], [f]) == map[]
  {
    OneFile(f);
    hide ChangedFiles, Mtimes, Target, Paths;
    assert AfterWrites(map[], []) == map[];
  }

  /** A refused first turn leaves the sandbox empty however often the same project is sent again. */
  lemma {:induction false} RefusedThenUnchanged(root: string, f: ScannedFile, again: nat)
    requires Accepted(f.path)
    ensures var steps := [Refused(root, [f])] + seq(again, _ => Applied(root, [f]));
            && RunSteps(steps) == Remote(map[], map[root := map[f.path := f.mtime]])
            && Target([f]) == map[f.path := f.content]
  {
    OneFile(f);
    SameAgain(f);
    hide Mtimes, Target, Synced, Accepted;
    var steps := [Refused(root, [f])] + seq(again, _ => Applied(root, [f]));
    if again == 0 {
      assert steps[..0] == [] && steps == [Refused(root, [f])];
    } else {
      RefusedThenUnchanged(root, f, again - 1);
      assert steps[..|steps| - 1] == [Refused(root, [f])] + seq(again - 1, _ => Applied(root, [f]));
    }
  }
}
