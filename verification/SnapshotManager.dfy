/** Taking and restoring snapshots on a disk. */
module SnapshotManager {
  import opened Options
  import opened SnapshotSpec

  // -- How far a restore has come --------------------------------------------

  /** A place of the snapshot that the walk visits. */
  predicate Visited(d: Disk, s: Path, r: Path) {
    Exists(d, s + r) && Clean(r)
  }

  /** Restoring this place fails: its target is a directory, or lies below a file. */
  predicate Clash(d: Disk, w: Path, s: Path, r: Path) {
    && Visited(d, s, r) && r != []
    && if s + r in d.files then w + r in d.dirs || Blocked(d, w + r)
       else !Exists(d, w + r) && Blocked(d, w + r)
  }

  /** Nothing in the snapshot is restored into the snapshot itself. */
  ghost predicate NotNested(d: Disk, w: Path, s: Path) {
    w <= s && forall r :: Visited(d, s, r) && s <= w + r ==> w + r == s
  }

  ghost predicate Apart(d: Disk, w: Path, s: Path) {
    s in d.dirs && NotNested(d, w, s)
  }

  /** The two disks are alike at and below `s`. */
  ghost predicate SameUnder(d: Disk, e: Disk, s: Path) {
    forall p :: s <= p ==> FileAt(e, p) == FileAt(d, p) && (p in e.dirs <==> p in d.dirs)
  }

  /** `q` was made on the way to some restored place. */
  predicate MadeFor(d: Disk, w: Path, s: Path, q: Path, r: Path) {
    Visited(d, s, r) && (q < w + r || (q == w + r && s + r in d.dirs))
  }

  /** The disk `d` after the places `done` of the snapshot on `d0` were restored. */
  ghost predicate Progress(d0: Disk, d: Disk, w: Path, s: Path, done: set<Path>) {
    && (forall p :: FileAt(d, p) == if w <= p && p[|w|..] in done then FileAt(d0, s + p[|w|..]) else FileAt(d0, p))
    && (forall r :: r in done ==> Backed(d0, s, r))
    && d0.dirs <= d.dirs
    && (forall q :: q in d.dirs && q !in d0.dirs ==> exists r :: MadeFor(d0, w, s, q, r))
  }

  lemma NoProgress(d0: Disk, w: Path, s: Path)
    ensures Progress(d0, d0, w, s, {})
  {
  }

  /** The snapshot itself does not change while it is restored. */
  lemma SnapshotIsStable(d0: Disk, d: Disk, w: Path, s: Path, done: set<Path>, p: Path)
    requires Sane(d0) && Sane(d) && Apart(d0, w, s) && Progress(d0, d, w, s, done) && s <= p
    ensures FileAt(d, p) == FileAt(d0, p) && (p in d.dirs <==> p in d0.dirs)
  {
    if w <= p {
      assert w + p[|w|..] == p;
    }
  }

  /** Above a place of the snapshot there are only directories. */
  lemma AboveIsDir(d: Disk, s: Path, r: Path, q: Path)
    requires Sane(d) && Exists(d, s + r) && q < r
    ensures s + q in d.dirs
  {
    assert (s + r)[..|s + q|] == s + q;
  }

  lemma BlockedFromStart(d0: Disk, d: Disk, w: Path, s: Path, done: set<Path>, r: Path)
    requires Sane(d0) && Progress(d0, d, w, s, done) && Visited(d0, s, r)
    ensures Blocked(d, w + r) <==> Blocked(d0, w + r)
  {
    if Blocked(d, w + r) {
      var k :| 0 <= k < |w + r| && (w + r)[..k] in d.files;
      var p := (w + r)[..k];
      if w <= p && p[|w|..] in done {
        AboveIsDir(d0, s, r, p[|w|..]);
      }
      assert FileAt(d, p) == FileAt(d0, p);
    }
    if Blocked(d0, w + r) {
      var k :| 0 <= k < |w + r| && (w + r)[..k] in d0.files;
      var p := (w + r)[..k];
      assert FileAt(d, p).Some?;
    }
  }

  /** Writing a file back fails if and only if it clashed from the start. */
  lemma WriteFailsIff(d0: Disk, d: Disk, w: Path, s: Path, done: set<Path>, r: Path, content: string)
    requires Sane(d0) && Progress(d0, d, w, s, done) && Backed(d0, s, r) && r != []
    ensures WriteFile(d, w + r, content).None? <==> Clash(d0, w, s, r)
  {
    BlockedFromStart(d0, d, w, s, done, r);
    if w + r in d.dirs && w + r !in d0.dirs {
      var q :| MadeFor(d0, w, s, w + r, q);
      if r != q {
        assert r == (w + r)[|w|..] && q == (w + q)[|w|..];
        AboveIsDir(d0, s, q, r);
      }
    }
  }

  lemma WriteProgresses(d0: Disk, d: Disk, e: Disk, w: Path, s: Path, done: set<Path>, r: Path)
    requires Progress(d0, d, w, s, done) && Backed(d0, s, r)
    requires WriteFile(d, w + r, d0.files[s + r]) == Some(e)
    ensures Progress(d0, e, w, s, done + {r})
  {
    assert Visited(d0, s, r);
    forall q | q in e.dirs && q !in d0.dirs ensures exists x :: MadeFor(d0, w, s, q, x) {
      if q !in d.dirs {
        var k :| 0 <= k < |w + r| && q == (w + r)[..k];
        assert MadeFor(d0, w, s, q, r);
      }
    }
    forall p ensures FileAt(e, p) ==
                     if w <= p && p[|w|..] in done + {r} then FileAt(d0, s + p[|w|..]) else FileAt(d0, p) {
      assert FileAt(d, p) == if w <= p && p[|w|..] in done then FileAt(d0, s + p[|w|..]) else FileAt(d0, p);
      assert (w + r)[|w|..] == r;
      if w <= p {
        assert p == w + p[|w|..];
      }
    }
  }

  lemma MakeFailsIff(d0: Disk, d: Disk, w: Path, s: Path, done: set<Path>, r: Path)
    requires Sane(d0) && Sane(d) && Progress(d0, d, w, s, done) && Visited(d0, s, r) && s + r in d0.dirs && r != []
    ensures !Exists(d, w + r) && MakeDirs(d, w + r).None? <==> Clash(d0, w, s, r)
  {
    BlockedFromStart(d0, d, w, s, done, r);
    assert (w + r)[|w|..] == r;
    assert FileAt(d, w + r) == if r in done then FileAt(d0, s + r) else FileAt(d0, w + r);
    assert r !in done;
    if Blocked(d, w + r) {
      var k :| 0 <= k < |w + r| && (w + r)[..k] in d.files;
      assert w + r !in d.dirs;
    }
  }

  lemma MakeProgresses(d0: Disk, d: Disk, e: Disk, w: Path, s: Path, done: set<Path>, r: Path)
    requires Progress(d0, d, w, s, done) && Visited(d0, s, r) && s + r in d0.dirs
    requires MakeDirs(d, w + r) == Some(e)
    ensures Progress(d0, e, w, s, done)
  {
    forall q | q in e.dirs && q !in d0.dirs ensures exists x :: MadeFor(d0, w, s, q, x) {
      if q !in d.dirs {
        if q != w + r {
          var k :| 0 <= k < |w + r| && q == (w + r)[..k];
        }
        assert MadeFor(d0, w, s, q, r);
      }
    }
    forall p ensures FileAt(e, p) == FileAt(d, p) {
    }
  }

  // -- One directory of the walk ---------------------------------------------

  function Entries(d: Disk, dir: Path): set<string> {
    set p | p in d.files.Keys + d.dirs && |p| == |dir| + 1 && p[..|dir|] == dir :: p[|dir|]
  }

  /** The backed-up places below `rel` through one of the names. */
  function Under(d: Disk, s: Path, rel: Path, names: set<string>): set<Path> {
    set p | p in d.files && s + rel < p && p[|s + rel|] in names && Clean(p[|s|..]) :: p[|s|..]
  }

  function Below(d: Disk, s: Path, rel: Path): set<Path> {
    set p | p in d.files && s + rel < p && Clean(p[|s|..]) :: p[|s|..]
  }

  /** No place below `rel` through one of the names clashes. */
  ghost predicate Smooth(d: Disk, w: Path, s: Path, rel: Path, names: set<string>) {
    forall r :: rel < r && r[|rel|] in names ==> !Clash(d, w, s, r)
  }

  ghost predicate SmoothBelow(d: Disk, w: Path, s: Path, rel: Path) {
    forall r :: rel < r ==> !Clash(d, w, s, r)
  }

  /** The state of the loop over the entries of `rel`: the names `seen` are dealt with. */
  ghost predicate Dealt(d0: Disk, d: Disk, w: Path, s: Path, rel: Path, seen: set<string>,
                        done0: set<Path>, done: set<Path>) {
    && Progress(d0, d, w, s, done)
    && done == done0 + Under(d0, s, rel, seen)
    && Smooth(d0, w, s, rel, seen)
  }

  lemma DealtNothing(d0: Disk, d: Disk, w: Path, s: Path, rel: Path, done: set<Path>)
    requires Progress(d0, d, w, s, done)
    ensures Dealt(d0, d, w, s, rel, {}, done, done)
  {
  }

  lemma DealtManifest(d0: Disk, d: Disk, w: Path, s: Path, rel: Path, seen: set<string>,
                      done0: set<Path>, done: set<Path>)
    requires Dealt(d0, d, w, s, rel, seen, done0, done)
    ensures Dealt(d0, d, w, s, rel, seen + {MANIFEST}, done0, done)
  {
    hide Progress;
    assert Under(d0, s, rel, seen + {MANIFEST}) == Under(d0, s, rel, seen) by {
      forall p | p in d0.files && s + rel < p && p[|s + rel|] == MANIFEST ensures !Clean(p[|s|..]) {
        assert p[|s|..][|rel|] == MANIFEST;
      }
    }
  }

  lemma UnderFile(d: Disk, s: Path, rel: Path, names: set<string>, n: string)
    requires Sane(d) && Backed(d, s, rel + [n])
    ensures Under(d, s, rel, names + {n}) == Under(d, s, rel, names) + {rel + [n]}
  {
    var f := s + (rel + [n]);
    assert f == s + rel + [n] && f[|s|..] == rel + [n];
    forall p | p in d.files && s + rel < p && p[|s + rel|] == n ensures p == f {
      assert p[..|f|] == f;
    }
  }

  lemma DealtFile(d0: Disk, d: Disk, e: Disk, w: Path, s: Path, rel: Path, seen: set<string>, n: string,
                  done0: set<Path>, done: set<Path>)
    requires Sane(d0) && Backed(d0, s, rel + [n]) && Dealt(d0, d, w, s, rel, seen, done0, done)
    requires WriteFile(d, w + (rel + [n]), d0.files[s + (rel + [n])]) == Some(e)
    ensures Dealt(d0, e, w, s, rel, seen + {n}, done0, done + {rel + [n]})
  {
    var r := rel + [n];
    WriteFailsIff(d0, d, w, s, done, r, d0.files[s + r]);
    WriteProgresses(d0, d, e, w, s, done, r);
    UnderFile(d0, s, rel, seen, n);
    hide Progress, Under, Clash;
    forall x | rel < x && x[|rel|] in seen + {n} ensures !Clash(d0, w, s, x) {
      if x[|rel|] == n && x != r {
        assert r < x;
        if Clash(d0, w, s, x) {
          ClashExists(d0, w, s, x);
          AboveIsDir(d0, s, x, r);
        }
      }
    }
  }

  lemma ClashExists(d: Disk, w: Path, s: Path, r: Path)
    requires Clash(d, w, s, r)
    ensures Exists(d, s + r) && Visited(d, s, r)
  {
  }

  lemma UnderDir(d: Disk, s: Path, rel: Path, names: set<string>, n: string)
    requires Sane(d) && s + (rel + [n]) in d.dirs
    ensures Under(d, s, rel, names + {n}) == Under(d, s, rel, names) + Below(d, s, rel + [n])
  {
    var f := s + (rel + [n]);
    assert f == s + rel + [n];
    forall p | p in d.files && s + rel < p && p[|s + rel|] == n ensures f < p {
      assert f in d.dirs && p != f;
      assert p[..|f|] == f;
      assert p[..|p|] == p;
    }
    forall p | p in d.files && f < p ensures s + rel < p && p[|s + rel|] == n {
    }
  }

  lemma DealtDir(d0: Disk, d: Disk, e: Disk, w: Path, s: Path, rel: Path, seen: set<string>, n: string,
                 done0: set<Path>, done: set<Path>, after: set<Path>)
    requires Sane(d0) && s + (rel + [n]) in d0.dirs && Dealt(d0, d, w, s, rel, seen, done0, done)
    requires Progress(d0, e, w, s, after) && after == done + Below(d0, s, rel + [n])
    requires SmoothBelow(d0, w, s, rel + [n]) && !Clash(d0, w, s, rel + [n])
    ensures Dealt(d0, e, w, s, rel, seen + {n}, done0, after)
  {
    UnderDir(d0, s, rel, seen, n);
    hide Progress, Under, Below, Clash;
    forall x | rel < x && x[|rel|] in seen + {n} ensures !Clash(d0, w, s, x) {
      if x[|rel|] == n && x != rel + [n] {
        assert rel + [n] < x;
      }
    }
  }

  /** Once every entry is dealt with, so is everything below. */
  lemma DealtAll(d0: Disk, d: Disk, w: Path, s: Path, rel: Path, all: set<string>, done0: set<Path>, done: set<Path>)
    requires Sane(d0) && Dealt(d0, d, w, s, rel, all, done0, done)
    requires forall n :: Exists(d0, s + rel + [n]) ==> n in all
    ensures done == done0 + Below(d0, s, rel) && SmoothBelow(d0, w, s, rel)
  {
    hide Progress;
    assert Under(d0, s, rel, all) == Below(d0, s, rel) by {
      forall p | p in d0.files && s + rel < p ensures p[|s + rel|] in all {
        EntryAbove(d0, s + rel, p);
      }
    }
    forall r | rel < r ensures !Clash(d0, w, s, r) {
      assert (s + r)[|s + rel|] == r[|rel|];
      if Clash(d0, w, s, r) {
        EntryAbove(d0, s + rel, s + r);
      }
    }
  }

  lemma EntryAbove(d: Disk, dir: Path, p: Path)
    requires Sane(d) && Exists(d, p) && dir < p
    ensures Exists(d, dir + [p[|dir|]])
  {
    assert p[..|dir| + 1] == dir + [p[|dir|]];
    if |dir| + 1 < |p| {
      assert p[..|dir| + 1] in d.dirs;
    } else {
      assert p[..|dir| + 1] == p;
    }
  }

  lemma EntryIff(d: Disk, dir: Path, n: string)
    ensures n in Entries(d, dir) <==> Exists(d, dir + [n])
  {
    if Exists(d, dir + [n]) {
      assert (dir + [n])[|dir|] == n;
    }
    if n in Entries(d, dir) {
      var p :| p in d.files.Keys + d.dirs && |p| == |dir| + 1 && p[..|dir|] == dir && p[|dir|] == n;
      assert p == dir + [n];
    }
  }

  // -- The manager -----------------------------------------------------------

  /** No path in the snapshot directory is longer than `bound`. */
  ghost predicate Bounded(d: Disk, s: Path, bound: nat) {
    forall p :: Exists(d, p) && s <= p ==> |p| <= bound
  }

  ghost predicate Grown(d: Disk, e: Disk) {
    d.files.Keys <= e.files.Keys && d.dirs <= e.dirs
  }

  lemma WriteGrows(d: Disk, e: Disk, w: Path, s: Path, r: Path, content: string, bound: nat)
    requires WriteFile(d, w + r, content) == Some(e) && Bounded(d, s, bound) && |w| <= |s| && |s + r| <= bound
    ensures Bounded(e, s, bound) && Grown(d, e)
  {
  }

  lemma MakeGrows(d: Disk, e: Disk, w: Path, s: Path, r: Path, bound: nat)
    requires MakeDirs(d, w + r) == Some(e) && Bounded(d, s, bound) && |w| <= |s| && |s + r| <= bound
    ensures Bounded(e, s, bound) && Grown(d, e)
  {
  }

  lemma LongestBounds(d: Disk, s: Path)
    ensures Bounded(d, s, Longest(d.files.Keys + d.dirs))
  {
  }

  lemma NothingCopied(d: Disk, w: Path, s: Path, list: seq<Path>)
    requires |w| <= |s|
    ensures CopyAll(d, w, s, list[..0]) == Some(d)
  {
  }

  /** A bound on the paths of a disk, which is finite. */
  ghost function Longest(paths: set<Path>): (n: nat)
    ensures forall p :: p in paths ==> |p| <= n
  {
    if paths == {} then 0 else
      var p :| p in paths;
      var n := Longest(paths - {p});
      assert forall q :: q in paths ==> q == p || q in paths - {p};
      if |p| > n then |p| else n
  }

  /** What the walk below `rel` has done when it ends: everything, or it met a clash. */
  ghost predicate Walked(d0: Disk, d: Disk, w: Path, s: Path, rel: Path, done0: set<Path>, done: set<Path>, ok: bool) {
    && Progress(d0, d, w, s, done)
    && (ok ==> done == done0 + Below(d0, s, rel) && SmoothBelow(d0, w, s, rel))
    && (!ok ==> exists r :: Clash(d0, w, s, r))
  }

  /** The situation the walk starts from, unless the snapshot is restored into itself. */
  ghost predicate Tracked(d0: Disk, d: Disk, w: Path, s: Path, rel: Path, done: set<Path>) {
    Sane(d0) && Apart(d0, w, s) && Progress(d0, d, w, s, done) && Clean(rel)
  }

  lemma FileEntry(d0: Disk, d: Disk, w: Path, s: Path, rel: Path, seen: set<string>, n: string,
                  done0: set<Path>, done: set<Path>)
    requires Sane(d0) && Sane(d) && Apart(d0, w, s) && Clean(rel) && n != MANIFEST
    requires Dealt(d0, d, w, s, rel, seen, done0, done) && s + (rel + [n]) in d.files
    ensures var r := rel + [n];
            match WriteFile(d, w + r, d.files[s + r])
            case None => Clash(d0, w, s, r)
            case Some(e) => Dealt(d0, e, w, s, rel, seen + {n}, done0, done + {r})
  {
    var r := rel + [n];
    SnapshotIsStable(d0, d, w, s, done, s + r);
    assert Clean(r);
    hide Sane, Apart, Progress, Clash, Clean;
    BackedIfFile(d0, d, s, r);
    WriteFailsIff(d0, d, w, s, done, r, d.files[s + r]);
    var written := WriteFile(d, w + r, d.files[s + r]);
    if written.Some? {
      DealtFile(d0, d, written.value, w, s, rel, seen, n, done0, done);
    }
  }

  lemma BackedIfFile(d0: Disk, d: Disk, s: Path, r: Path)
    requires s + r in d.files && FileAt(d, s + r) == FileAt(d0, s + r) && Clean(r)
    ensures Backed(d0, s, r) && d.files[s + r] == d0.files[s + r]
  {
  }

  lemma DirEntry(d0: Disk, d: Disk, w: Path, s: Path, rel: Path, n: string, done: set<Path>)
    requires Sane(d0) && Sane(d) && Apart(d0, w, s) && Clean(rel) && n != MANIFEST
    requires Progress(d0, d, w, s, done) && s + (rel + [n]) in d.dirs
    ensures var r := rel + [n];
            && s + r in d0.dirs && Clean(r)
            && (Exists(d, w + r) ==> !Clash(d0, w, s, r))
            && (!Exists(d, w + r) ==>
                  match MakeDirs(d, w + r)
                  case None => Clash(d0, w, s, r)
                  case Some(e) => !Clash(d0, w, s, r) && Progress(d0, e, w, s, done))
  {
    var r := rel + [n];
    SnapshotIsStable(d0, d, w, s, done, s + r);
    assert Clean(r) && s + r in d0.dirs;
    assert Visited(d0, s, r);
    hide Sane, Apart, Progress, Clash, Clean, Visited;
    MakeFailsIff(d0, d, w, s, done, r);
    var made := MakeDirs(d, w + r);
    if made.Some? {
      MakeProgresses(d0, d, made.value, w, s, done, r);
    }
  }

  /** The entries read at the start are those of the snapshot. */
  lemma EntriesOfStart(d0: Disk, d: Disk, w: Path, s: Path, rel: Path, done: set<Path>)
    requires Sane(d0) && Sane(d) && Apart(d0, w, s) && Progress(d0, d, w, s, done)
    ensures forall n :: Exists(d0, s + rel + [n]) ==> n in Entries(d, s + rel)
  {
    hide Sane, Apart, Progress;
    forall n | Exists(d0, s + rel + [n]) ensures n in Entries(d, s + rel) {
      SnapshotIsStable(d0, d, w, s, done, s + rel + [n]);
      EntryIff(d, s + rel, n);
    }
  }

  class SnapshotManager {
    const workingDir: Path
    var disk: Disk

    constructor (workingDir: Path, disk: Disk)
      ensures this.workingDir == workingDir && this.disk == disk
    {
      this.workingDir := workingDir;
      this.disk := disk;
    }

    /** Copies the listed files, as they are now, into the directory of the snapshot. */
    method CreateSnapshot(session: string, id: string, list: seq<Path>, manifest: string) returns (ok: bool)
      modifies this
      ensures var created := Created(old(disk), workingDir, SnapshotDir(workingDir, session, id), list, manifest);
              (ok <==> created.Some?) && (ok ==> disk == created.value)
    {
      hide CopyOne, WriteFile, MakeDirs, CopyAll;
      var s := SnapshotDir(workingDir, session, id);
      if !Exists(disk, s) {
        var made := MakeDirs(disk, s);
        if made.None? {
          return false;
        }
        disk := made.value;
      }
      ghost var ready := disk;
      NothingCopied(ready, workingDir, s, list);
      for i := 0 to |list|
        invariant CopyAll(ready, workingDir, s, list[..i]) == Some(disk)
      {
        CopyAllSnoc(ready, workingDir, s, list, i);
        var copied := CopyOne(disk, workingDir, s, list[i]);
        if copied.None? {
          CopyAllFails(ready, workingDir, s, list, i + 1);
          return false;
        }
        disk := copied.value;
      }
      assert list[..|list|] == list;
      var written := WriteFile(disk, s + [MANIFEST], manifest);
      if written.None? {
        return false;
      }
      disk := written.value;
      ok := true;
    }

    /** Copies the snapshot back. */
    method RestoreSnapshot(session: string, id: string) returns (ok: bool)
      requires Sane(disk)
      modifies this
      ensures Sane(disk)
      ensures var s := SnapshotDir(workingDir, session, id);
              && (s !in old(disk).dirs ==> !ok && disk == old(disk))
              && (Apart(old(disk), workingDir, s) ==> Outcome(old(disk), disk, workingDir, s, ok))
    {
      hide Sane, Progress, Outcome, NotNested, Bounded, Grown, Walked;
      var s := SnapshotDir(workingDir, session, id);
      if s !in disk.dirs {
        return false;
      }
      hide Apart;
      ghost var start := disk;
      assert s + [] == s;
      ghost var bound := Longest(disk.files.Keys + disk.dirs);
      LongestBounds(disk, s);
      NoProgress(disk, workingDir, s);
      ghost var done;
      ok, done := CopyBack(s, [], bound, start, {});
      if Apart(start, workingDir, s) {
        WalkedIsRestored(start, disk, workingDir, s, done, ok);
      }
    }

    method CopyBack(s: Path, rel: Path, ghost bound: nat, ghost d0: Disk, ghost done0: set<Path>)
      returns (ok: bool, ghost done: set<Path>)
      requires Sane(disk) && Bounded(disk, s, bound) && |workingDir| <= |s| && s + rel in disk.dirs
      modifies this
      ensures Sane(disk) && Bounded(disk, s, bound) && Grown(old(disk), disk)
      ensures Tracked(d0, old(disk), workingDir, s, rel, done0) ==>
                Walked(d0, disk, workingDir, s, rel, done0, done, ok)
      decreases bound - |s + rel|
    {
      hide Dealt, Entries, Apart, Progress, Clash, Sane, Clean, Below, SmoothBelow, WriteFile, MakeDirs, Bounded, Grown;
      ghost var start := disk;
      ghost var tracked := Tracked(d0, disk, workingDir, s, rel, done0);
      var names := Entries(disk, s + rel);
      ghost var all := names;
      done := done0;
      if tracked {
        DealtNothing(d0, disk, workingDir, s, rel, done0);
      }
      GrownSelf(disk);
      assert all - names == {};
      while names != {}
        invariant names <= all
        invariant Sane(disk) && Bounded(disk, s, bound) && Grown(start, disk)
        invariant tracked ==> Dealt(d0, disk, workingDir, s, rel, all - names, done0, done)
      {
        ghost var seen := all - names;
        var n :| n in names;
        names := names - {n};
        assert all - names == seen + {n};
        if n == MANIFEST {
          if tracked { DealtManifest(d0, disk, workingDir, s, rel, seen, done0, done); }
          continue;
        }
        var r := rel + [n];
        EntryStays(start, disk, s, rel, n, bound);
        ghost var before, sofar := disk, done;
        if s + r in disk.dirs {
          if tracked {
            DealtProgress(d0, disk, workingDir, s, rel, seen, done0, done);
            DirEntry(d0, disk, workingDir, s, rel, n, done);
          }
          if !Exists(disk, workingDir + r) {
            var made := MakeDirs(disk, workingDir + r);
            if made.None? {
              return false, done;
            }
            MakeKeepsSane(disk, workingDir + r);
            MakeGrows(disk, made.value, workingDir, s, r, bound);
            GrownThrough(start, disk, made.value);
            disk := made.value;
          }
          ghost var made := disk;
          assert s + r in disk.dirs by { GrownHas(before, disk, s + r); }
          ok, done := CopyBack(s, r, bound, d0, done);
          GrownThrough(start, made, disk);
          if !ok {
            return;
          }
          if tracked {
            DealtDir(d0, before, disk, workingDir, s, rel, seen, n, done0, sofar, done);
          }
        } else {
          if tracked {
            FileEntry(d0, disk, workingDir, s, rel, seen, n, done0, done);
            DealtProgress(d0, disk, workingDir, s, rel, seen, done0, done);
          }
          var written := WriteFile(disk, workingDir + r, disk.files[s + r]);
          if written.None? {
            return false, done;
          }
          WriteKeepsSane(disk, workingDir + r, disk.files[s + r]);
          WriteGrows(disk, written.value, workingDir, s, r, disk.files[s + r], bound);
          GrownThrough(start, disk, written.value);
          disk := written.value;
          done := done + {r};
        }
      }
      ok := true;
      if tracked {
        assert all - names == all;
        EntriesOfStart(d0, start, workingDir, s, rel, done0);
        DealtAll(d0, disk, workingDir, s, rel, all, done0, done);
        DealtProgress(d0, disk, workingDir, s, rel, all, done0, done);
      }
    }
  }

  lemma {:induction false} CopyAllFails(d: Disk, w: Path, s: Path, list: seq<Path>, k: nat)
    requires |w| <= |s| && k <= |list| && CopyAll(d, w, s, list[..k]).None?
    ensures CopyAll(d, w, s, list).None?
    decreases |list|
  {
    if k == |list| {
      assert list[..k] == list;
    } else {
      assert list[..|list| - 1][..k] == list[..k];
      CopyAllFails(d, w, s, list[..|list| - 1], k);
    }
  }

  lemma CopyAllSnoc(d: Disk, w: Path, s: Path, list: seq<Path>, i: nat)
    requires |w| <= |s| && i < |list| && CopyAll(d, w, s, list[..i]).Some?
    ensures CopyAll(d, w, s, list[..i + 1]) == CopyOne(CopyAll(d, w, s, list[..i]).value, w, s, list[i])
  {
    assert list[..i + 1][..i] == list[..i];
  }

  /** What a restore makes of the disk `d0`: it succeeds if and only if nothing clashes, and then the
      disk is restored; if it breaks off, each file is as it was or as it was backed up. Either way
      the snapshot stays. */
  ghost predicate Outcome(d0: Disk, d: Disk, w: Path, s: Path, ok: bool) {
    && (ok <==> forall r :: !Clash(d0, w, s, r))
    && (ok ==> Restored(d0, d, w, s))
    && (forall p :: FileAt(d, p) == FileAt(d0, p) ||
                    (w <= p && Backed(d0, s, p[|w|..]) && FileAt(d, p) == FileAt(d0, s + p[|w|..])))
    && SameUnder(d0, d, s)
  }

  /** What a complete or broken-off walk over the whole snapshot means for the disk. */
  lemma WalkedIsRestored(d0: Disk, d: Disk, w: Path, s: Path, done: set<Path>, ok: bool)
    requires Sane(d0) && Sane(d) && Apart(d0, w, s) && Walked(d0, d, w, s, [], {}, done, ok)
    ensures Outcome(d0, d, w, s, ok)
  {
    forall p | s <= p ensures FileAt(d, p) == FileAt(d0, p) && (p in d.dirs <==> p in d0.dirs) {
      SnapshotIsStable(d0, d, w, s, done, p);
    }
    if ok {
      forall r ensures !Clash(d0, w, s, r) {
        assert r != [] ==> [] < r;
      }
      forall r | Backed(d0, s, r) ensures r in done {
        var p := s + r;
        assert p[|s|..] == r && s + [] == s;
      }
    }
  }

  lemma GrownSelf(d: Disk)
    ensures Grown(d, d)
  {
  }

  lemma GrownThrough(d: Disk, m: Disk, e: Disk)
    requires Grown(d, m) && Grown(m, e)
    ensures Grown(d, e)
  {
  }

  lemma GrownHas(d: Disk, e: Disk, p: Path)
    requires p in d.dirs && (d == e || Grown(d, e))
    ensures p in e.dirs
  {
  }

  lemma EntryStays(start: Disk, d: Disk, s: Path, rel: Path, n: string, bound: nat)
    requires n in Entries(start, s + rel) && Grown(start, d) && Bounded(d, s, bound)
    ensures Exists(d, s + (rel + [n])) && |s + (rel + [n])| <= bound
  {
    EntryIff(start, s + rel, n);
    assert s + rel + [n] == s + (rel + [n]);
  }

  lemma DealtProgress(d0: Disk, d: Disk, w: Path, s: Path, rel: Path, seen: set<string>,
                      done0: set<Path>, done: set<Path>)
    requires Dealt(d0, d, w, s, rel, seen, done0, done)
    ensures Progress(d0, d, w, s, done)
  {
  }

  // -- From the snapshot to its restore --------------------------------------

  /** Files inside the working directory, and not inside the snapshot itself. */
  ghost predicate Listable(w: Path, s: Path, list: seq<Path>) {
    forall k :: 0 <= k < |list| ==> w <= list[k] && !(s <= list[k])
  }

  /** Everything new lies on the way to the snapshot or to the copy of a listed file. */
  ghost predicate OnlyCopies(d: Disk, e: Disk, w: Path, s: Path, list: seq<Path>) {
    forall p :: Exists(e, p) && !Exists(d, p) ==>
      p <= s || exists k :: 0 <= k < |list| && w <= list[k] && p <= s + list[k][|w|..]
  }

  lemma WriteAdds(m: Disk, e: Disk, c: Path, content: string, p: Path)
    requires WriteFile(m, c, content) == Some(e) && Exists(e, p) && !Exists(m, p)
    ensures p <= c
  {
  }

  lemma OneCopy(d: Disk, m: Disk, e: Disk, w: Path, s: Path, front: seq<Path>, q: Path)
    requires w <= s && w <= q && OnlyCopies(d, m, w, s, front) && CopyOne(m, w, s, q) == Some(e)
    ensures OnlyCopies(d, e, w, s, front + [q])
  {
    var list, c := front + [q], s + q[|w|..];
    CommonOfInside(w, q);
    assert CopyOf(w, s, q) == c;
    forall p | Exists(e, p) && !Exists(d, p) && !(p <= s)
      ensures exists k :: 0 <= k < |list| && w <= list[k] && p <= s + list[k][|w|..]
    {
      if Exists(m, p) {
        var k :| 0 <= k < |front| && w <= front[k] && p <= s + front[k][|w|..];
        assert list[k] == front[k];
      } else {
        WriteAdds(m, e, c, m.files[q], p);
        assert list[|front|] == q;
      }
    }
  }

  lemma {:induction false} CopiesOnlyCopy(d: Disk, e: Disk, w: Path, s: Path, list: seq<Path>)
    requires w <= s && Listable(w, s, list) && CopyAll(d, w, s, list) == Some(e)
    ensures OnlyCopies(d, e, w, s, list)
    decreases |list|
  {
    if list != [] {
      hide OnlyCopies, CopyOne;
      var front, q := list[..|list| - 1], list[|list| - 1];
      var m := CopyAll(d, w, s, front).value;
      CopiesOnlyCopy(d, m, w, s, front);
      OneCopy(d, m, e, w, s, front, q);
      assert list == front + [q];
    }
  }

  lemma CopiesAreApart(w: Path, s: Path, list: seq<Path>, r: Path)
    requires |w| < |s| && Listable(w, s, list)
    requires s + r <= s || exists k :: 0 <= k < |list| && w <= list[k] && s + r <= s + list[k][|w|..]
    ensures !(s <= w + r)
  {
    if s + r <= s {
      assert |r| == 0;
    } else {
      var k :| 0 <= k < |list| && w <= list[k] && s + r <= s + list[k][|w|..];
      var rest := list[k][|w|..];
      assert (s + r)[|s|..] == r && (s + rest)[|s|..] == rest && (s + rest)[..|s + r|] == s + r;
      assert r == rest[..|r|];
      assert list[k] == w + rest;
      assert w + r <= list[k];
    }
  }

  lemma NewIsNotNested(d: Disk, e: Disk, w: Path, s: Path, list: seq<Path>)
    requires |w| < |s| && NotNested(d, w, s) && Listable(w, s, list) && OnlyCopies(d, e, w, s, list)
    ensures NotNested(e, w, s)
  {
    hide Listable;
    forall r | Visited(e, s, r) && s <= w + r ensures w + r == s {
      if Exists(d, s + r) {
        assert Visited(d, s, r);
      } else {
        CopiesAreApart(w, s, list, r);
      }
    }
  }

  lemma OpenedOnlyMakes(d: Disk, o: Disk, w: Path, s: Path)
    requires Opened(d, s) == Some(o)
    ensures OnlyCopies(d, o, w, s, []) && Exists(o, s)
  {
  }

  lemma ManifestIsNotVisited(m: Disk, e: Disk, s: Path, manifest: string, r: Path)
    requires WriteFile(m, s + [MANIFEST], manifest) == Some(e) && Visited(e, s, r)
    ensures Visited(m, s, r) || r == []
  {
    if !Exists(m, s + r) {
      WriteAdds(m, e, s + [MANIFEST], manifest, s + r);
      assert |r| <= 1;
      assert (s + r)[|s|..] == r && (s + [MANIFEST])[|s|..] == [MANIFEST];
    }
  }

  lemma ManifestAdds(m: Disk, e: Disk, w: Path, s: Path, manifest: string)
    requires NotNested(m, w, s) && WriteFile(m, s + [MANIFEST], manifest) == Some(e) && |w| < |s|
    ensures Apart(e, w, s)
  {
    assert (s + [MANIFEST])[..|s|] == s && s in Parents(s + [MANIFEST]);
    hide WriteFile, Visited;
    forall r | Visited(e, s, r) && s <= w + r ensures w + r == s {
      ManifestIsNotVisited(m, e, s, manifest, r);
    }
  }

  /** Taking a snapshot leaves one that is apart from its own directory, whether it is new or was
      apart before, as one under a name that is used again. */
  lemma CreatedIsApart(d: Disk, e: Disk, w: Path, s: Path, list: seq<Path>, manifest: string)
    requires |w| < |s| && NotNested(d, w, s) && Listable(w, s, list)
    requires Created(d, w, s, list, manifest) == Some(e)
    ensures Apart(e, w, s)
  {
    hide NotNested, OnlyCopies, Listable;
    var o := Opened(d, s).value;
    var m := CopyAll(o, w, s, list).value;
    OpenedOnlyMakes(d, o, w, s);
    NothingListed(w, s);
    NestedHasRoom(d, w, s);
    NewIsNotNested(d, o, w, s, []);
    CopiesOnlyCopy(o, m, w, s, list);
    NewIsNotNested(o, m, w, s, list);
    ManifestAdds(m, e, w, s, manifest);
  }

  lemma NothingListed(w: Path, s: Path)
    ensures Listable(w, s, [])
  {
  }

  lemma NestedHasRoom(d: Disk, w: Path, s: Path)
    requires NotNested(d, w, s)
    ensures w <= s
  {
  }

  /** A directory with nothing in it, or that does not exist, is apart from the start. */
  lemma NewNameIsNotNested(d: Disk, w: Path, s: Path)
    requires w <= s && |w| < |s| && forall p :: s < p ==> !Exists(d, p)
    ensures NotNested(d, w, s)
  {
    forall r ensures !(Visited(d, s, r) && s <= w + r) {
      assert r == [] || s < s + r;
    }
  }

  /** Whatever changes elsewhere, the snapshot stays apart. */
  lemma StaysApart(d: Disk, e: Disk, w: Path, s: Path)
    requires NotNested(d, w, s) && SameUnder(d, e, s)
    ensures NotNested(e, w, s) && (Apart(d, w, s) ==> Apart(e, w, s))
  {
    forall r | Visited(e, s, r) && s <= w + r ensures w + r == s {
      assert s <= s + r && FileAt(e, s + r) == FileAt(d, s + r);
      assert Visited(d, s, r);
    }
  }

  /** One change of the disk: a snapshot is taken at `s`, or something happens that leaves `s` as it
      is, such as any work on other files or a restore. */
  ghost predicate Changes(d: Disk, e: Disk, w: Path, s: Path) {
    || SameUnder(d, e, s)
    || exists list, manifest :: Listable(w, s, list) && w <= s && Created(d, w, s, list, manifest) == Some(e)
  }

  /** Over any run of such changes the snapshot stays apart from its own directory. */
  lemma {:induction false} ApartOverRuns(disks: seq<Disk>, w: Path, s: Path)
    requires disks != [] && |w| < |s| && NotNested(disks[0], w, s)
    requires forall k :: 0 < k < |disks| ==> Changes(disks[k - 1], disks[k], w, s)
    ensures NotNested(disks[|disks| - 1], w, s)
    decreases |disks|
  {
    hide SameUnder, Listable, NotNested;
    var n := |disks| - 1;
    if n > 0 {
      ApartOverRuns(disks[..n], w, s);
      var d, e := disks[n - 1], disks[n];
      assert Changes(d, e, w, s);
      if SameUnder(d, e, s) {
        StaysApart(d, e, w, s);
      } else {
        var list, manifest :| Listable(w, s, list) && w <= s && Created(d, w, s, list, manifest) == Some(e);
        CreatedIsApart(d, e, w, s, list, manifest);
        ApartIsNotNested(e, w, s);
      }
    }
  }

  lemma ApartIsNotNested(d: Disk, w: Path, s: Path)
    requires Apart(d, w, s)
    ensures NotNested(d, w, s)
  {
  }

  /** Snapshot, later writes, restore: the restore succeeds if and only if no target has become a
      directory or lies below a file, and then every listed file is as it was at the snapshot. Files
      of an older snapshot under the same name are as they were then, and no other file changes. */
  lemma SnapshotThenRestore(d: Disk, e: Disk, f: Disk, g: Disk, ok: bool, w: Path, s: Path, list: seq<Path>,
                            manifest: string, p: Path)
    requires |w| < |s| && Sane(d) && NotNested(d, w, s) && Listable(w, s, list)
    requires Created(d, w, s, list, manifest) == Some(e)
    requires SameUnder(e, f, s)
    requires Apart(f, w, s) ==> Outcome(f, g, w, s, ok)
    ensures ok <==> forall r :: !Clash(f, w, s, r)
    ensures ok && w <= p && Clean(p[|w|..]) && p in list && p in d.files ==> FileAt(g, p) == FileAt(d, p)
    ensures ok && w <= p && Clean(p[|w|..]) && !(p in list && p in d.files) && s + p[|w|..] in d.files ==>
              FileAt(g, p) == FileAt(d, s + p[|w|..])
    ensures ok && !(w <= p && Clean(p[|w|..]) && ((p in list && p in d.files) || s + p[|w|..] in d.files)) ==>
              FileAt(g, p) == FileAt(f, p)
  {
    NestedHasRoom(d, w, s);
    CreatedIsApart(d, e, w, s, list, manifest);
    ApartIsNotNested(e, w, s);
    StaysApart(e, f, w, s);
    hide NotNested;
    if ok {
      RestoreUndoesWrites(d, e, f, g, w, s, list, manifest, p);
    }
  }
}
