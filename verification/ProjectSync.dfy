/** Packaging a client's project and replicating it, by deltas, into a sandbox on the host. */
module ProjectSync {
  import opened Options

  /** A POSIX relative path, split at its slashes. */
  type Path = seq<string>

  datatype ScannedFile = ScannedFile(path: Path, content: string, mtime: int, size: nat)
  datatype SyncFile = SyncFile(path: Path, content: string)
  datatype Mode = Full | Delta

  // -- The client: what changed since the last sync --------------------------

  ghost predicate UniquePaths(scan: seq<ScannedFile>) {
    forall j, k :: 0 <= j < k < |scan| ==> scan[j].path != scan[k].path
  }

  function Paths(scan: seq<ScannedFile>): set<Path> {
    set k | 0 <= k < |scan| :: scan[k].path
  }

  predicate Changed(f: ScannedFile, sent: map<Path, int>) {
    f.path !in sent || sent[f.path] != f.mtime
  }

  function ChangedFiles(scan: seq<ScannedFile>, sent: map<Path, int>): seq<SyncFile> {
    if scan == [] then [] else
      var f := scan[|scan| - 1];
      ChangedFiles(scan[..|scan| - 1], sent) + if Changed(f, sent) then [SyncFile(f.path, f.content)] else []
  }

  /** The record of what was shipped, after a scan is packaged: each path with its mtime. */
  function Mtimes(scan: seq<ScannedFile>): map<Path, int> {
    if scan == [] then map[] else
      Mtimes(scan[..|scan| - 1])[scan[|scan| - 1].path := scan[|scan| - 1].mtime]
  }

  lemma {:induction false} MtimesDomain(scan: seq<ScannedFile>)
    ensures Mtimes(scan).Keys == Paths(scan)
    ensures UniquePaths(scan) ==> forall k :: 0 <= k < |scan| ==> Mtimes(scan)[scan[k].path] == scan[k].mtime
  {
    if scan != [] {
      var init, last := scan[..|scan| - 1], scan[|scan| - 1];
      MtimesDomain(init);
      PathsSnoc(init, last);
      assert scan == init + [last];
    }
  }

  lemma PathsSnoc(scan: seq<ScannedFile>, f: ScannedFile)
    ensures Paths(scan + [f]) == Paths(scan) + {f.path}
  {
    var s := scan + [f];
    assert s[|scan|] == f;
    assert forall k :: 0 <= k < |scan| ==> s[k] == scan[k];
  }

  /** State of the packaging loop after `scan` has been gone through. */
  ghost predicate Packaged(start: map<Path, int>, scan: seq<ScannedFile>, sent: map<Path, int>,
                           seen: set<Path>, files: seq<SyncFile>)
  {
    && seen == Paths(scan)
    && files == ChangedFiles(scan, start)
    && sent == start + Mtimes(scan)
  }

  lemma PackagedNext(start: map<Path, int>, scan: seq<ScannedFile>, f: ScannedFile, sent: map<Path, int>,
                     seen: set<Path>, files: seq<SyncFile>)
    requires Packaged(start, scan, sent, seen, files) && f.path !in Paths(scan)
    ensures f.path in sent <==> f.path in start
    ensures f.path in sent ==> sent[f.path] == start[f.path]
    ensures Packaged(start, scan + [f], sent[f.path := f.mtime], seen + {f.path},
                     if Changed(f, start) then files + [SyncFile(f.path, f.content)] else files)
  {
    hide Paths;
    MtimesDomain(scan);
    PathsSnoc(scan, f);
    assert (scan + [f])[..|scan|] == scan;
  }

  lemma NothingPackaged(start: map<Path, int>)
    ensures Packaged(start, [], start, {}, [])
  {
  }

  class SyncState {
    var sent: map<Path, int>

    constructor ()
      ensures sent == map[]
    {
      sent := map[];
    }

    /** `buildSync`: ships exactly the new or touched files and the paths that disappeared. */
    method BuildSync(scanned: seq<ScannedFile>) returns (mode: Mode, files: seq<SyncFile>, deletes: seq<Path>)
      requires UniquePaths(scanned)
      modifies this
      ensures mode == if old(sent) == map[] then Full else Delta
      ensures files == ChangedFiles(scanned, old(sent))
      ensures forall p :: p in deletes <==> p in old(sent) && p !in Paths(scanned)
      ensures forall j, k :: 0 <= j < k < |deletes| ==> deletes[j] != deletes[k]
      ensures sent == Mtimes(scanned)
    {
      mode := if |sent| == 0 then Full else Delta;
      files := [];
      var seen: set<Path> := {};
      ghost var start := sent;
      hide Packaged, ChangedFiles, Mtimes, Paths, UniquePaths;
      assert scanned[..0] == [];
      NothingPackaged(start);
      for i := 0 to |scanned|
        invariant Packaged(start, scanned[..i], sent, seen, files)
      {
        var f := scanned[i];
        assert scanned[..i + 1] == scanned[..i] + [f];
        NotYetSeen(scanned, i);
        PackagedNext(start, scanned[..i], f, sent, seen, files);
        seen := seen + {f.path};
        if f.path !in sent || sent[f.path] != f.mtime {
          files := files + [SyncFile(f.path, f.content)];
        }
        sent := sent[f.path := f.mtime];
      }
      assert scanned[..|scanned|] == scanned;
      AllPackaged(start, scanned, sent, seen, files);
      deletes := Forget(seen);
      assert sent == Mtimes(scanned);
    }

    /** The second loop of `buildSync`: drops the recorded paths that were not seen. */
    method Forget(seen: set<Path>) returns (deletes: seq<Path>)
      modifies this
      ensures forall p :: p in deletes <==> p in old(sent) && p !in seen
      ensures forall j, k :: 0 <= j < k < |deletes| ==> deletes[j] != deletes[k]
      ensures sent == map p | p in old(sent) && p in seen :: old(sent)[p]
    {
      deletes := [];
      var todo := sent.Keys;
      while todo != {}
        invariant todo <= old(sent).Keys
        invariant forall p :: p in deletes <==> p in old(sent) && p !in seen && p !in todo
        invariant forall j, k :: 0 <= j < k < |deletes| ==> deletes[j] != deletes[k]
        invariant sent == map p | p in old(sent) && (p in seen || p in todo) :: old(sent)[p]
        decreases todo
      {
        var p :| p in todo;
        todo := todo - {p};
        if p !in seen {
          deletes := deletes + [p];
          sent := sent - {p};
        }
      }
    }
  }

  lemma NotYetSeen(scan: seq<ScannedFile>, i: nat)
    requires UniquePaths(scan) && i < |scan|
    ensures scan[i].path !in Paths(scan[..i])
  {
  }

  lemma AllPackaged(start: map<Path, int>, scan: seq<ScannedFile>, sent: map<Path, int>,
                    seen: set<Path>, files: seq<SyncFile>)
    requires Packaged(start, scan, sent, seen, files)
    ensures seen == Paths(scan) && files == ChangedFiles(scan, start)
    ensures sent.Keys == start.Keys + Paths(scan)
    ensures (map p | p in sent && p in seen :: sent[p]) == Mtimes(scan)
  {
    MtimesDomain(scan);
  }

  // -- The host: a sandbox per guest and provider ----------------------------

  /** `s` holds two dots in a row somewhere. */
  predicate HasDoubleDot(s: string) {
    exists k :: 0 <= k < |s| - 1 && s[k] == '.' && s[k + 1] == '.'
  }

  /** Paths the host touches: not absolute, and without `..` anywhere in the text. */
  predicate Accepted(p: Path) {
    && p != []
    && p[0] != ""
    && forall k :: 0 <= k < |p| ==> !HasDoubleDot(p[k])
  }

  /** A path as the text that is sent. */
  function Text(p: Path): string {
    if p == [] then "" else if |p| == 1 then p[0] else p[0] + "/" + Text(p[1..])
  }

  predicate DotsAt(t: string, k: int) {
    0 <= k < |t| - 1 && t[k..k + 2] == ".."
  }

  lemma DoubleDotIff(t: string)
    ensures HasDoubleDot(t) <==> exists k :: DotsAt(t, k)
  {
    if k :| 0 <= k < |t| - 1 && t[k] == '.' && t[k + 1] == '.' {
      assert DotsAt(t, k);
    }
    if k :| DotsAt(t, k) {
      assert t[k..k + 2][0] == t[k] && t[k..k + 2][1] == t[k + 1];
      assert ".."[0] == '.' && ".."[1] == '.';
    }
  }

  /** Put together with a slash, two texts have two dots in a row only where one of them has. */
  lemma DotsDoNotMeet(a: string, b: string)
    ensures HasDoubleDot(a + "/" + b) <==> HasDoubleDot(a) || HasDoubleDot(b)
  {
    var t := a + "/" + b;
    assert forall k :: 0 <= k < |a| ==> t[k] == a[k];
    assert t[|a|] == '/';
    assert forall k :: 0 <= k < |b| ==> t[|a| + 1 + k] == b[k];
  }

  lemma {:induction false} DotsInText(p: Path)
    ensures HasDoubleDot(Text(p)) <==> exists k :: 0 <= k < |p| && HasDoubleDot(p[k])
  {
    hide HasDoubleDot;
    if p == [] {
      assert !HasDoubleDot("") by { NoDots(); }
    } else if |p| > 1 {
      DotsInText(p[1..]);
      DotsDoNotMeet(p[0], Text(p[1..]));
      assert forall k :: 1 <= k < |p| ==> p[k] == p[1..][k - 1];
    }
  }

  lemma NoDots()
    ensures !HasDoubleDot("")
  {
  }

  /** The host takes a path exactly if its text is not empty, is not absolute, and holds no `..` at all. */
  lemma AcceptedIff(p: Path)
    requires forall k :: 0 <= k < |p| ==> '/' !in p[k]
    ensures Accepted(p) <==>
            Text(p) != "" && Text(p)[0] != '/' && !(exists k :: DotsAt(Text(p), k))
  {
    DotsInText(p);
    DoubleDotIff(Text(p));
    hide HasDoubleDot, DotsAt;
    if p != [] && p[0] != "" {
      assert Text(p)[0] == p[0][0];
      assert p[0][0] in p[0];
    }
  }

  type Files = map<Path, string>

  function AfterDeletes(disk: Files, deletes: seq<Path>): Files {
    map p | p in disk && !(p in deletes && Accepted(p)) :: disk[p]
  }

  function AfterWrites(disk: Files, files: seq<SyncFile>): Files {
    if files == [] then disk else
      var before, f := AfterWrites(disk, files[..|files| - 1]), files[|files| - 1];
      if Accepted(f.path) then before[f.path := f.content] else before
  }

  class SandboxHost {
    var sandboxes: map<(string, string), Files>

    constructor ()
      ensures sandboxes == map[]
    {
      sandboxes := map[];
    }

    /** `applyProjectSync`: deletions first, then the shipped files, in order. */
    method ApplyProjectSync(guestId: string, provider: string, files: seq<SyncFile>, deletes: seq<Path>)
      modifies this
      ensures var key := (guestId, provider);
              var before := if key in old(sandboxes) then old(sandboxes)[key] else map[];
              sandboxes == old(sandboxes)[key := AfterWrites(AfterDeletes(before, deletes), files)]
    {
      var key := (guestId, provider);
      if key !in sandboxes {
        sandboxes := sandboxes[key := map[]];
      }
      var disk := sandboxes[key];
      assert disk == AfterDeletes(disk, deletes[..0]);
      for i := 0 to |deletes|
        invariant disk == AfterDeletes(sandboxes[key], deletes[..i])
      {
        assert deletes[..i + 1] == deletes[..i] + [deletes[i]];
        if Accepted(deletes[i]) {
          disk := disk - {deletes[i]};
        }
      }
      assert deletes[..|deletes|] == deletes;
      ghost var cleaned := disk;
      for i := 0 to |files|
        invariant disk == AfterWrites(cleaned, files[..i])
      {
        assert files[..i + 1][..i] == files[..i];
        if Accepted(files[i].path) {
          disk := disk[files[i].path := files[i].content];
        }
      }
      assert files[..|files|] == files;
      sandboxes := sandboxes[key := disk];
    }
  }

  // -- Convergence -----------------------------------------------------------

  /** What the sandbox is meant to hold after a scan: every file the host accepts. */
  function Target(scan: seq<ScannedFile>): Files {
    if scan == [] then map[] else
      var f := scan[|scan| - 1];
      if Accepted(f.path) then Target(scan[..|scan| - 1])[f.path := f.content] else Target(scan[..|scan| - 1])
  }

  /** The sandbox after one scan is packaged against `sent` and applied to `disk`. */
  function Synced(disk: Files, sent: map<Path, int>, scan: seq<ScannedFile>): Files {
    AfterWrites(map p | p in disk && !(p in sent && p !in Paths(scan) && Accepted(p)) :: disk[p],
                ChangedFiles(scan, sent))
  }

  /** The methods above, composed, compute `Synced`. */
  lemma SyncedIsBuildThenApply(disk: Files, sent: map<Path, int>, scan: seq<ScannedFile>, deletes: seq<Path>)
    requires forall p :: p in deletes <==> p in sent && p !in Paths(scan)
    ensures AfterWrites(AfterDeletes(disk, deletes), ChangedFiles(scan, sent)) == Synced(disk, sent, scan)
  {
    assert AfterDeletes(disk, deletes)
        == map p | p in disk && !(p in sent && p !in Paths(scan) && Accepted(p)) :: disk[p];
  }

  lemma {:induction false} TargetAt(scan: seq<ScannedFile>)
    requires UniquePaths(scan)
    ensures Target(scan).Keys == set p | p in Paths(scan) && Accepted(p)
    ensures forall k :: 0 <= k < |scan| && Accepted(scan[k].path) ==> Target(scan)[scan[k].path] == scan[k].content
  {
    hide Accepted;
    if scan != [] {
      var init, last := scan[..|scan| - 1], scan[|scan| - 1];
      TargetAt(init);
      PathsSnoc(init, last);
      assert scan == init + [last];
    }
  }

  /** What writing the changed files of a scan does to each path. */
  lemma {:induction false} WritesAt(disk: Files, scan: seq<ScannedFile>, sent: map<Path, int>)
    requires UniquePaths(scan)
    ensures var r := AfterWrites(disk, ChangedFiles(scan, sent));
            && (forall k :: 0 <= k < |scan| && Accepted(scan[k].path) && Changed(scan[k], sent) ==>
                  scan[k].path in r && r[scan[k].path] == scan[k].content)
            && (forall k :: 0 <= k < |scan| && !(Accepted(scan[k].path) && Changed(scan[k], sent)) ==>
                  (scan[k].path in r <==> scan[k].path in disk) &&
                  (scan[k].path in disk ==> r[scan[k].path] == disk[scan[k].path]))
            && (forall p :: p !in Paths(scan) ==> (p in r <==> p in disk) && (p in disk ==> r[p] == disk[p]))
  {
    hide Accepted, Changed, AfterWrites, ChangedFiles;
    if scan == [] {
      assert AfterWrites(disk, ChangedFiles(scan, sent)) == disk by { NothingWritten(disk, sent); }
    } else {
      var init, last := scan[..|scan| - 1], scan[|scan| - 1];
      WritesAt(disk, init, sent);
      PathsSnoc(init, last);
      assert scan == init + [last];
      assert last.path !in Paths(init);
      OneMoreWrite(disk, init, last, sent);
    }
  }

  lemma NothingWritten(disk: Files, sent: map<Path, int>)
    ensures AfterWrites(disk, ChangedFiles([], sent)) == disk
  {
  }

  lemma OneMoreWrite(disk: Files, init: seq<ScannedFile>, last: ScannedFile, sent: map<Path, int>)
    ensures var before := AfterWrites(disk, ChangedFiles(init, sent));
            AfterWrites(disk, ChangedFiles(init + [last], sent)) ==
            if Accepted(last.path) && Changed(last, sent) then before[last.path := last.content] else before
  {
    hide Accepted, Changed;
    assert (init + [last])[..|init|] == init;
    var c, f := ChangedFiles(init, sent), SyncFile(last.path, last.content);
    assert (c + [f])[..|c|] == c && c + [] == c;
    assert ChangedFiles(init + [last], sent) == if Changed(last, sent) then c + [f] else c;
  }

  /** What must hold of sandbox and record for a sync to bring the sandbox to the scan: unchanged
      files are already there, and whatever else is there was recorded. */
  ghost predicate Ready(disk: Files, sent: map<Path, int>, scan: seq<ScannedFile>) {
    && (forall k :: 0 <= k < |scan| && Accepted(scan[k].path) && !Changed(scan[k], sent) ==>
          scan[k].path in disk && disk[scan[k].path] == scan[k].content)
    && (forall p :: p in disk ==> Accepted(p) && (p in Paths(scan) || p in sent))
  }

  /** One sync, from any sandbox and any record, brings the sandbox to the scan if and only if
      they were ready for it. */
  lemma SyncConvergesIff(disk: Files, sent: map<Path, int>, scan: seq<ScannedFile>)
    requires UniquePaths(scan)
    ensures Synced(disk, sent, scan) == Target(scan) <==> Ready(disk, sent, scan)
  {
    hide Accepted, Changed, AfterWrites, ChangedFiles, Target;
    var kept := map p | p in disk && !(p in sent && p !in Paths(scan) && Accepted(p)) :: disk[p];
    WritesAt(kept, scan, sent);
    TargetAt(scan);
    var r := Synced(disk, sent, scan);
    if Ready(disk, sent, scan) {
      assert forall p :: p in r <==> p in Target(scan);
      assert forall p :: p in Target(scan) ==> r[p] == Target(scan)[p];
    }
    if r == Target(scan) {
      forall p | p in disk ensures Accepted(p) && (p in Paths(scan) || p in sent) {
        if p !in sent || p in Paths(scan) {
          assert p in kept;
          assert p in r by {
            if p in Paths(scan) {
              var k :| 0 <= k < |scan| && scan[k].path == p;
            }
          }
        }
      }
      forall k | 0 <= k < |scan| && Accepted(scan[k].path) && !Changed(scan[k], sent)
        ensures scan[k].path in disk && disk[scan[k].path] == scan[k].content
      {
        assert scan[k].path in Paths(scan);
      }
    }
  }

  lemma {:induction false} OthersStay(disk: Files, files: seq<SyncFile>, p: Path)
    requires forall k :: 0 <= k < |files| ==> files[k].path != p
    ensures FileIn(AfterWrites(disk, files), p) == FileIn(disk, p)
  {
    if files != [] {
      OthersStay(disk, files[..|files| - 1], p);
    }
  }

  function FileIn(disk: Files, p: Path): Option<string> {
    if p in disk then Some(disk[p]) else None
  }

  /** A delta is minimal: a package that leaves out a changed file fails on some sandbox that the
      record allows, whatever else it holds. */
  lemma ChangedFilesAreNeeded(scan: seq<ScannedFile>, sent: map<Path, int>, k: nat,
                              files: seq<SyncFile>, deletes: seq<Path>) returns (disk: Files)
    requires UniquePaths(scan) && k < |scan| && Accepted(scan[k].path) && Changed(scan[k], sent)
    requires forall j :: 0 <= j < |files| ==> files[j].path != scan[k].path
    ensures Ready(disk, sent, scan)
    ensures AfterWrites(AfterDeletes(disk, deletes), files) != Target(scan)
  {
    disk := Target(scan) - {scan[k].path};
    TargetAt(scan);
    OthersStay(AfterDeletes(disk, deletes), files, scan[k].path);
    assert scan[k].path in Paths(scan);
  }

  /** So does one that leaves out the deletion of a path that disappeared. */
  lemma DeletionsAreNeeded(scan: seq<ScannedFile>, sent: map<Path, int>, p: Path,
                           files: seq<SyncFile>, deletes: seq<Path>) returns (disk: Files)
    requires UniquePaths(scan) && p in sent && p !in Paths(scan) && Accepted(p) && p !in deletes
    ensures Ready(disk, sent, scan)
    ensures AfterWrites(AfterDeletes(disk, deletes), files) != Target(scan)
  {
    disk := Target(scan)[p := ""];
    TargetAt(scan);
    StaysUnlessDeleted(AfterDeletes(disk, deletes), files, p);
  }

  lemma {:induction false} StaysUnlessDeleted(disk: Files, files: seq<SyncFile>, p: Path)
    requires p in disk
    ensures p in AfterWrites(disk, files)
  {
    if files != [] {
      StaysUnlessDeleted(disk, files[..|files| - 1], p);
    }
  }

  /** What is shipped is in the scan, so nothing is shipped and deleted at once. */
  lemma {:induction false} ShippedIff(scan: seq<ScannedFile>, sent: map<Path, int>, f: SyncFile)
    ensures f in ChangedFiles(scan, sent) <==>
            exists k :: 0 <= k < |scan| && Changed(scan[k], sent) && SyncFile(scan[k].path, scan[k].content) == f
  {
    if scan != [] {
      var init, last := scan[..|scan| - 1], scan[|scan| - 1];
      ShippedIff(init, sent, f);
      hide Changed;
      if Changed(last, sent) && SyncFile(last.path, last.content) == f {
        assert scan[|scan| - 1] == last;
      }
      if f in ChangedFiles(init, sent) {
        var k :| 0 <= k < |init| && Changed(init[k], sent) && SyncFile(init[k].path, init[k].content) == f;
        assert scan[k] == init[k];
      }
    }
  }

  /** Between consecutive scans, an equal mtime means equal content. */
  ghost predicate HonestMtimes(before: seq<ScannedFile>, after: seq<ScannedFile>) {
    forall j, k ::
      (0 <= j < |before| && 0 <= k < |after| && before[j].path == after[k].path && before[j].mtime == after[k].mtime)
      ==> before[j].content == after[k].content
  }

  ghost predicate HonestRun(scans: seq<seq<ScannedFile>>) {
    && (forall k :: 0 <= k < |scans| ==> UniquePaths(scans[k]))
    && (forall k :: 0 < k < |scans| ==> HonestMtimes(scans[k - 1], scans[k]))
  }

  datatype Replica = Replica(disk: Files, sent: map<Path, int>)

  /** A whole run: every scan packaged in order, every package applied in order. */
  function Replicate(scans: seq<seq<ScannedFile>>): Replica {
    if scans == [] then Replica(map[], map[]) else
      var before, scan := Replicate(scans[..|scans| - 1]), scans[|scans| - 1];
      Replica(Synced(before.disk, before.sent, scan), Mtimes(scan))
  }

  /** After every sync of every honest run the sandbox is exactly the accepted part of the latest
      scan, and the record is that scan's mtimes. */
  lemma {:induction false} DeltaSyncConverges(scans: seq<seq<ScannedFile>>)
    requires scans != [] && HonestRun(scans)
    ensures var scan := scans[|scans| - 1];
            Replicate(scans) == Replica(Target(scan), Mtimes(scan))
  {
    hide Synced, Target, Mtimes, Ready, UniquePaths;
    var init, scan := scans[..|scans| - 1], scans[|scans| - 1];
    assert Replicate([]) == Replica(map[], map[]);
    if init == [] {
      FirstSyncIsReady(scan);
    } else {
      var last := init[|init| - 1];
      assert last == scans[|scans| - 2];
      assert HonestRun(init) by {
        forall k | 0 < k < |init| ensures HonestMtimes(init[k - 1], init[k]) {
          assert init[k] == scans[k] && init[k - 1] == scans[k - 1];
        }
      }
      DeltaSyncConverges(init);
      assert HonestMtimes(scans[|scans| - 2], scans[|scans| - 1]);
      NextSyncIsReady(last, scan);
    }
    SyncConvergesIff(Replicate(init).disk, Replicate(init).sent, scan);
  }

  lemma FirstSyncIsReady(scan: seq<ScannedFile>)
    ensures Ready(map[], map[], scan)
  {
  }

  lemma NextSyncIsReady(last: seq<ScannedFile>, scan: seq<ScannedFile>)
    requires UniquePaths(last) && UniquePaths(scan) && HonestMtimes(last, scan)
    ensures Ready(Target(last), Mtimes(last), scan)
  {
    hide Accepted, Target, Mtimes;
    TargetAt(last);
    MtimesDomain(last);
    forall k | 0 <= k < |scan| && Accepted(scan[k].path) && !Changed(scan[k], Mtimes(last))
      ensures scan[k].path in Target(last) && Target(last)[scan[k].path] == scan[k].content
    {
      var j :| 0 <= j < |last| && last[j].path == scan[k].path;
    }
  }

  /** The sandbox is the whole scan exactly when the host accepts every path in it; a file name
      such as `a..b` is enough to be left out. */
  lemma TargetIsWholeScanIff(scan: seq<ScannedFile>)
    requires UniquePaths(scan)
    ensures Target(scan).Keys == Paths(scan) <==> forall k :: 0 <= k < |scan| ==> Accepted(scan[k].path)
    ensures !Accepted(["src", "a..b"])
  {
    hide Target;
    TargetAt(scan);
    if Target(scan).Keys == Paths(scan) {
      forall k | 0 <= k < |scan| ensures Accepted(scan[k].path) {
        assert scan[k].path in Paths(scan);
      }
    } else {
      var p :| p in Paths(scan) && p !in Target(scan).Keys;
      var k :| 0 <= k < |scan| && scan[k].path == p;
    }
    assert "a..b"[1] == '.' && "a..b"[2] == '.';
    assert HasDoubleDot(["src", "a..b"][1]);
  }

  /** Every file the refused sync shipped was touched again or was on disk already, and every path
      it deleted is back or was not there. */
  ghost predicate Recovers(disk: Files, sent: map<Path, int>, refused: seq<ScannedFile>, next: seq<ScannedFile>) {
    && (forall j, k :: 0 <= j < |refused| && 0 <= k < |next| && Untouched(refused[j], next[k]) &&
                       Accepted(refused[j].path) && Changed(refused[j], sent) ==>
          refused[j].path in disk && disk[refused[j].path] == refused[j].content)
    && (forall p :: p in disk && p !in Paths(refused) ==> p in Paths(next))
  }

  /** The record is updated when a sync is packaged, not when it is applied. If the host refuses
      a turn, the next sync still converges exactly when the refused one `Recovers`. */
  lemma RefusedSyncRecoversIff(disk: Files, sent: map<Path, int>, refused: seq<ScannedFile>, next: seq<ScannedFile>)
    requires UniquePaths(refused) && UniquePaths(next) && HonestMtimes(refused, next)
    requires Ready(disk, sent, refused)
    ensures Synced(disk, Mtimes(refused), next) == Target(next) <==> Recovers(disk, sent, refused, next)
  {
    hide Accepted, Synced, Target, Mtimes;
    SyncConvergesIff(disk, Mtimes(refused), next);
    MtimesDomain(refused);
    if Recovers(disk, sent, refused, next) {
      forall k | 0 <= k < |next| && Accepted(next[k].path) && !Changed(next[k], Mtimes(refused))
        ensures next[k].path in disk && disk[next[k].path] == next[k].content
      {
        var j :| 0 <= j < |refused| && refused[j].path == next[k].path;
        assert Untouched(refused[j], next[k]);
      }
    }
    if Ready(disk, Mtimes(refused), next) {
      forall j, k | 0 <= j < |refused| && 0 <= k < |next| && Untouched(refused[j], next[k]) &&
                    Accepted(refused[j].path)
        ensures refused[j].path in disk && disk[refused[j].path] == refused[j].content
      {
        assert !Changed(next[k], Mtimes(refused));
      }
    }
  }

  predicate Untouched(before: ScannedFile, after: ScannedFile) {
    before.path == after.path && before.mtime == after.mtime
  }

  /** Applying an edit that the remote agent made: the host's sandbox has it already, the client
      writes it to its own disk and enters the current time in the record. */
  function EditBack(r: Replica, path: Path, content: string, now: int): Replica {
    Replica(r.disk[path := content], r.sent[path := now])
  }

  /** Edits written back keep the sandbox ready for the next scan, provided an equal mtime still
      means equal content and the edited file is still there or is in the record. */
  lemma EditsBackStayInStep(r: Replica, scan: seq<ScannedFile>, path: Path, content: string, now: int)
    requires UniquePaths(scan) && Accepted(path)
    requires Ready(r.disk, r.sent, scan)
    requires forall k :: 0 <= k < |scan| && scan[k].path == path && scan[k].mtime == now ==> scan[k].content == content
    ensures var e := EditBack(r, path, content, now);
            Synced(e.disk, e.sent, scan) == Target(scan)
  {
    hide Accepted, Synced, Target;
    var e := EditBack(r, path, content, now);
    SyncConvergesIff(e.disk, e.sent, scan);
  }
}
