/** A disk of files and directories, and what a snapshot of it holds. */
module SnapshotSpec {
  import opened Options

  /** An absolute path, as its components. */
  type Path = seq<string>
  datatype Disk = Disk(files: map<Path, string>, dirs: set<Path>)

  const MANIFEST: string := "manifest.json"
  const HOME: Path := [".koryphaios", "snapshots"]

  /** Files are not directories, and everything lies in directories. */
  ghost predicate Sane(d: Disk) {
    && [] in d.dirs
    && (forall p :: p in d.files ==> p !in d.dirs)
    && (forall p, k :: (p in d.files || p in d.dirs) && 0 <= k < |p| ==> p[..k] in d.dirs)
  }

  predicate Exists(d: Disk, p: Path) {
    p in d.files || p in d.dirs
  }

  /** Some directory that the path goes through is a file. */
  predicate Blocked(d: Disk, p: Path) {
    exists k :: 0 <= k < |p| && p[..k] in d.files
  }

  function Parents(p: Path): set<Path> {
    set k | 0 <= k < |p| :: p[..k]
  }

  function FileAt(d: Disk, p: Path): Option<string> {
    if p in d.files then Some(d.files[p]) else None
  }

  /** Writing a file creates the directories above it; it fails on a directory or through a file. */
  function WriteFile(d: Disk, p: Path, content: string): Option<Disk> {
    if p in d.dirs || Blocked(d, p) then None
    else Some(Disk(d.files[p := content], d.dirs + Parents(p)))
  }

  function MakeDirs(d: Disk, p: Path): Option<Disk> {
    if p in d.files || Blocked(d, p) then None
    else Some(d.(dirs := d.dirs + Parents(p) + {p}))
  }

  lemma WriteKeepsSane(d: Disk, p: Path, content: string)
    requires Sane(d) && WriteFile(d, p, content).Some?
    ensures Sane(WriteFile(d, p, content).value)
  {
    var e := WriteFile(d, p, content).value;
    forall q, k | (q in e.files || q in e.dirs) && 0 <= k < |q| ensures q[..k] in e.dirs {
      if q in Parents(p) {
        var j :| 0 <= j < |p| && q == p[..j];
        assert q[..k] == p[..k];
      }
    }
  }

  lemma MakeKeepsSane(d: Disk, p: Path)
    requires Sane(d) && MakeDirs(d, p).Some?
    ensures Sane(MakeDirs(d, p).value)
  {
    var e := MakeDirs(d, p).value;
    forall q, k | (q in e.files || q in e.dirs) && 0 <= k < |q| ensures q[..k] in e.dirs {
      if q in Parents(p) {
        var j :| 0 <= j < |p| && q == p[..j];
        assert q[..k] == p[..k];
      }
    }
  }

  // -- Taking a snapshot -----------------------------------------------------

  /** The directory of a snapshot, four levels below the working directory. */
  function SnapshotDir(w: Path, session: string, id: string): Path {
    w + HOME + [session, id]
  }

  function Common(a: Path, b: Path): (n: nat)
    ensures n <= |a| && n <= |b| && a[..n] == b[..n]
    ensures n < |a| && n < |b| ==> a[n] != b[n]
  {
    if a == [] || b == [] || a[0] != b[0] then 0 else
      var n := Common(a[1..], b[1..]);
      assert a[..n + 1] == [a[0]] + a[1..][..n] && b[..n + 1] == [b[0]] + b[1..][..n];
      n + 1
  }

  /** Where a file is copied to. The relative path of a file outside the working directory goes up,
      and its copy lands that much above the snapshot. */
  function CopyOf(w: Path, s: Path, p: Path): Path
    requires |w| <= |s|
  {
    var n := Common(w, p);
    s[..|s| - (|w| - n)] + p[n..]
  }

  /** A snapshot lives in `.koryphaios/snapshots/<session>/<id>`, and its manifest is `manifest.json`. */
  lemma SnapshotNames(w: Path, session: string, id: string)
    ensures SnapshotDir(w, session, id) == w + [".koryphaios", "snapshots", session, id]
    ensures MANIFEST == "manifest.json"
  {
  }

  /** A file in the working directory is copied to the same place below the snapshot; one outside, which
      has only the first `n` components in common with it, that many directories higher. */
  lemma CopyGoes(w: Path, s: Path, n: nat, rest: Path)
    requires n <= |w| <= |s| && (n < |w| && rest != [] ==> w[n] != rest[0])
    ensures n == |w| ==> CopyOf(w, s, w + rest) == s + rest
    ensures n < |w| ==> CopyOf(w, s, w[..n] + rest) == s[..|s| - (|w| - n)] + rest
  {
    if n == |w| {
      CommonOfInside(w, w + rest);
      assert s[..|s|] == s && (w + rest)[|w|..] == rest;
    } else {
      CommonIs(w, n, rest);
      assert (w[..n] + rest)[n..] == rest;
    }
  }

  lemma {:induction false} CommonIs(w: Path, n: nat, rest: Path)
    requires n < |w| && (rest != [] ==> w[n] != rest[0])
    ensures Common(w, w[..n] + rest) == n
  {
    if n == 0 {
      assert w[..0] + rest == rest;
    } else {
      assert (w[..n] + rest)[1..] == w[1..][..n - 1] + rest;
      CommonIs(w[1..], n - 1, rest);
    }
  }

  /** Writing fails exactly on a directory and below a file; making a directory on a file and below one.
      Otherwise the file, or the directory, is there, with all directories above it, and no other file
      changes. */
  lemma DiskWrites(d: Disk, p: Path, content: string, q: Path)
    ensures WriteFile(d, p, content).None? <==> p in d.dirs || exists k :: 0 <= k < |p| && p[..k] in d.files
    ensures WriteFile(d, p, content).Some? ==>
              var e := WriteFile(d, p, content).value;
              && FileAt(e, q) == (if q == p then Some(content) else FileAt(d, q))
              && (q in e.dirs <==> q in d.dirs || q < p)
    ensures MakeDirs(d, p).None? <==> p in d.files || exists k :: 0 <= k < |p| && p[..k] in d.files
    ensures MakeDirs(d, p).Some? ==>
              var e := MakeDirs(d, p).value;
              && e.files == d.files
              && (q in e.dirs <==> q in d.dirs || q <= p)
  {
    ParentsAre(p, q);
    hide Parents;
    assert q <= p && |q| == |p| ==> q == p;
  }

  lemma ParentsAre(p: Path, q: Path)
    ensures q in Parents(p) <==> q < p
  {
    if q < p {
      assert q == p[..|q|];
    }
  }

  lemma {:induction false} CommonOfInside(w: Path, p: Path)
    requires w <= p
    ensures Common(w, p) == |w|
  {
    if w != [] {
      assert w[1..] <= p[1..];
      CommonOfInside(w[1..], p[1..]);
    }
  }

  function CopyOne(d: Disk, w: Path, s: Path, p: Path): Option<Disk>
    requires |w| <= |s|
  {
    if p in d.files then WriteFile(d, CopyOf(w, s, p), d.files[p]) else Some(d)
  }

  function CopyAll(d: Disk, w: Path, s: Path, list: seq<Path>): Option<Disk>
    requires |w| <= |s|
  {
    if list == [] then Some(d) else
      match CopyAll(d, w, s, list[..|list| - 1])
      case None => None
      case Some(e) => CopyOne(e, w, s, list[|list| - 1])
  }

  function Opened(d: Disk, s: Path): Option<Disk> {
    if Exists(d, s) then Some(d) else MakeDirs(d, s)
  }

  /** The disk after a snapshot of the listed files. */
  function Created(d: Disk, w: Path, s: Path, list: seq<Path>, manifest: string): Option<Disk>
    requires |w| <= |s|
  {
    match Opened(d, s)
    case None => None
    case Some(o) =>
      match CopyAll(o, w, s, list)
      case None => None
      case Some(e) => WriteFile(e, s + [MANIFEST], manifest)
  }

  /** Taking a snapshot goes on past a listed path that is no file; a file is written to its copy's place,
      and only that can fail. A snapshot directory that is there is used as it is. */
  lemma CopyingGoesOn(d: Disk, e: Disk, w: Path, s: Path, list: seq<Path>, p: Path)
    requires |w| <= |s| && CopyAll(d, w, s, list) == Some(e)
    ensures p !in e.files ==> CopyAll(d, w, s, list + [p]) == Some(e)
    ensures p in e.files ==> CopyAll(d, w, s, list + [p]) == WriteFile(e, CopyOf(w, s, p), e.files[p])
    ensures s in d.dirs ==> Opened(d, s) == Some(d)
    ensures s !in d.dirs && s !in d.files ==> Opened(d, s) == MakeDirs(d, s)
    ensures CopyAll(d, w, s, []) == Some(d)
  {
    hide WriteFile, CopyOf, MakeDirs;
    assert (list + [p])[..|list|] == list;
  }

  /** What a place on disk holds once the listed files of `d` are copied to `s`. */
  function Held(d: Disk, w: Path, s: Path, list: seq<Path>, p: Path): Option<string> {
    if s <= p && w + p[|s|..] in list && w + p[|s|..] in d.files
    then Some(d.files[w + p[|s|..]]) else FileAt(d, p)
  }

  lemma {:induction false} CopiesAreHeld(d: Disk, e: Disk, w: Path, s: Path, list: seq<Path>)
    requires w <= s && Sane(d) && CopyAll(d, w, s, list) == Some(e)
    requires forall k :: 0 <= k < |list| ==> w <= list[k] && !(s <= list[k])
    ensures Sane(e)
    ensures forall p :: FileAt(e, p) == Held(d, w, s, list, p)
    decreases |list|
  {
    if list != [] {
      hide Sane, Held, CopyOne;
      var front, q := list[..|list| - 1], list[|list| - 1];
      var m := CopyAll(d, w, s, front).value;
      CopiesAreHeld(d, m, w, s, front);
      assert list == front + [q];
      CopyHolds(d, m, e, w, s, front, q);
    } else {
      hide Sane;
    }
  }

  lemma CopyHolds(d: Disk, m: Disk, e: Disk, w: Path, s: Path, front: seq<Path>, q: Path)
    requires w <= s && Sane(m) && CopyOne(m, w, s, q) == Some(e) && w <= q && !(s <= q)
    requires forall p :: FileAt(m, p) == Held(d, w, s, front, p)
    ensures Sane(e)
    ensures forall p :: FileAt(e, p) == Held(d, w, s, front + [q], p)
  {
    hide Sane;
    assert FileAt(m, q) == Held(d, w, s, front, q) == FileAt(d, q);
    hide Held;
    CommonOfInside(w, q);
    if q in m.files {
      assert CopyOf(w, s, q) == s + q[|w|..];
      WriteKeepsSane(m, s + q[|w|..], m.files[q]);
    }
    forall p ensures FileAt(e, p) == Held(d, w, s, front + [q], p) {
      OneMoreHeld(d, w, s, front, q, p);
      assert FileAt(m, p) == Held(d, w, s, front, p);
    }
  }

  lemma OneMoreHeld(d: Disk, w: Path, s: Path, front: seq<Path>, q: Path, p: Path)
    requires w <= q
    ensures Held(d, w, s, front + [q], p) ==
            if q in d.files && p == s + q[|w|..] then Some(d.files[q]) else Held(d, w, s, front, p)
  {
    if s <= p {
      assert p == s + p[|s|..] && q == w + q[|w|..];
      assert (w + p[|s|..])[|w|..] == p[|s|..];
      assert w + p[|s|..] in front + [q] <==> w + p[|s|..] in front || w + p[|s|..] == q;
    }
  }

  /** A snapshot holds each listed file as it was; older files in its directory stay. */
  lemma CreatedHolds(d: Disk, e: Disk, w: Path, s: Path, list: seq<Path>, manifest: string)
    requires w <= s && Sane(d) && Created(d, w, s, list, manifest) == Some(e)
    requires forall k :: 0 <= k < |list| ==> w <= list[k] && !(s <= list[k])
    ensures Sane(e)
    ensures forall p :: FileAt(e, p) ==
                        if p == s + [MANIFEST] then Some(manifest) else Held(d, w, s, list, p)
  {
    var o := Opened(d, s).value;
    if !Exists(d, s) {
      MakeKeepsSane(d, s);
    }
    var m := CopyAll(o, w, s, list).value;
    CopiesAreHeld(o, m, w, s, list);
    WriteKeepsSane(m, s + [MANIFEST], manifest);
    forall p ensures Held(o, w, s, list, p) == Held(d, w, s, list, p) {
    }
  }

  // -- Restoring it ----------------------------------------------------------

  /** No component of the path is named like the manifest; the walk skips those that have one. */
  predicate Clean(r: Path) {
    MANIFEST !in r
  }

  predicate Backed(d: Disk, s: Path, r: Path) {
    s + r in d.files && Clean(r)
  }

  /** The disk after a complete restore: each backed-up file is back, nothing else has changed. */
  ghost predicate Restored(d: Disk, e: Disk, w: Path, s: Path) {
    forall p :: FileAt(e, p) ==
      if w <= p && Backed(d, s, p[|w|..]) then FileAt(d, s + p[|w|..]) else FileAt(d, p)
  }

  /** A restore undoes every write since the snapshot on the files it lists, and on no others,
      except that files of an older snapshot with the same id come back as they were then. */
  lemma RestoreUndoesWrites(d: Disk, e: Disk, f: Disk, g: Disk, w: Path, s: Path, list: seq<Path>, manifest: string,
                            p: Path)
    requires w <= s && Sane(d) && Created(d, w, s, list, manifest) == Some(e)
    requires forall k :: 0 <= k < |list| ==> w <= list[k] && !(s <= list[k])
    requires forall q :: s <= q ==> FileAt(f, q) == FileAt(e, q)
    requires Restored(f, g, w, s)
    ensures w <= p && Clean(p[|w|..]) && p in list && p in d.files ==> FileAt(g, p) == FileAt(d, p)
    ensures w <= p && Clean(p[|w|..]) && !(p in list && p in d.files) && s + p[|w|..] in d.files ==>
              FileAt(g, p) == FileAt(d, s + p[|w|..])
    ensures !(w <= p && Clean(p[|w|..]) && ((p in list && p in d.files) || s + p[|w|..] in d.files)) ==>
              FileAt(g, p) == FileAt(f, p)
  {
    CreatedHolds(d, e, w, s, list, manifest);
    if w <= p && Clean(p[|w|..]) {
      var q := s + p[|w|..];
      assert s <= q && q[|s|..] == p[|w|..] && w + p[|w|..] == p;
      assert (s + [MANIFEST])[|s|..] == [MANIFEST];
      assert FileAt(f, q) == FileAt(e, q) == Held(d, w, s, list, q);
    }
  }

  /** A new snapshot backs up exactly the listed paths that are files: a listed directory adds
      nothing, so listing only the working directory makes a snapshot that restores nothing. */
  lemma FreshSnapshotHoldsIff(d: Disk, e: Disk, w: Path, s: Path, list: seq<Path>, manifest: string, r: Path)
    requires w <= s && Sane(d) && Created(d, w, s, list, manifest) == Some(e)
    requires forall k :: 0 <= k < |list| ==> w <= list[k] && !(s <= list[k])
    requires forall q :: s <= q ==> q !in d.files
    ensures Backed(e, s, r) <==> "manifest.json" !in r && w + r in list && w + r in d.files
  {
    CreatedHolds(d, e, w, s, list, manifest);
    var q := s + r;
    assert s <= q && q[|s|..] == r;
    assert (s + [MANIFEST])[|s|..] == [MANIFEST];
    assert FileAt(e, q) == if q == s + [MANIFEST] then Some(manifest) else Held(d, w, s, list, q);
  }
}
