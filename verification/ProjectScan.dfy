/** Walking a project within the size budget, before it is packaged. */
module ProjectScan {
  import opened ProjectSync

  const MAX_FILE_BYTES: nat := 1_000_000
  const MAX_TOTAL_BYTES: nat := 60_000_000

  /** A directory listing in the order `readdir` gives it. `text` is false for a file that cannot
      be read or that holds a NUL byte. */
  datatype Entry =
    | Dir(name: string, entries: seq<Entry>)
    | File(name: string, size: nat, mtime: int, content: string, text: bool)

  /** The name filters: built-in ignore lists, binary extensions and the top-level `.gitignore`. */
  datatype Rules = Rules(skipDir: string -> bool, skipFile: string -> bool)

  datatype Scan = Scan(out: seq<ScannedFile>, total: nat)

  predicate Eligible(rules: Rules, e: Entry) {
    e.File? && !rules.skipFile(e.name) && e.size <= MAX_FILE_BYTES && e.text
  }

  function Scanned(prefix: Path, e: Entry): ScannedFile
    requires e.File?
  {
    ScannedFile(prefix + [e.name], e.content, e.mtime, e.size)
  }

  /** The walk from a position in a listing, given what was collected so far. */
  function WalkFrom(rules: Rules, prefix: Path, entries: seq<Entry>, s: Scan): Scan
    decreases entries
  {
    if entries == [] || s.total >= MAX_TOTAL_BYTES then s
    else WalkFrom(rules, prefix, entries[1..], WalkOne(rules, prefix, entries[0], s))
  }

  function WalkOne(rules: Rules, prefix: Path, e: Entry, s: Scan): Scan
    decreases e
  {
    if e.Dir? then
      if rules.skipDir(e.name) then s else WalkFrom(rules, prefix + [e.name], e.entries, s)
    else if Eligible(rules, e) && s.total + e.size <= MAX_TOTAL_BYTES then
      Scan(s.out + [Scanned(prefix, e)], s.total + e.size)
    else s
  }

  class Scanner {
    const rules: Rules
    var out: seq<ScannedFile>
    var total: nat

    constructor (rules: Rules)
      ensures this.rules == rules && out == [] && total == 0
    {
      this.rules := rules;
      out, total := [], 0;
    }

    /** `walk` */
    method Walk(prefix: Path, entries: seq<Entry>)
      modifies this
      ensures Scan(out, total) == WalkFrom(rules, prefix, entries, old(Scan(out, total)))
      decreases entries
    {
      var i := 0;
      while i < |entries|
        invariant 0 <= i <= |entries|
        invariant WalkFrom(rules, prefix, entries[i..], Scan(out, total))
               == WalkFrom(rules, prefix, entries, old(Scan(out, total)))
      {
        if total >= MAX_TOTAL_BYTES {
          return;
        }
        var entry := entries[i];
        assert entries[i..][1..] == entries[i + 1..] && entries[i..][0] == entry;
        ghost var before := Scan(out, total);
        if entry.Dir? {
          if !rules.skipDir(entry.name) {
            Walk(prefix + [entry.name], entry.entries);
          }
        } else if !rules.skipFile(entry.name) && entry.size <= MAX_FILE_BYTES
               && total + entry.size <= MAX_TOTAL_BYTES && entry.text {
          total := total + entry.size;
          out := out + [Scanned(prefix, entry)];
        }
        assert Scan(out, total) == WalkOne(rules, prefix, entry, before);
        i := i + 1;
      }
    }
  }

  // -- Size accounting -------------------------------------------------------

  function Bytes(files: seq<ScannedFile>): nat {
    if files == [] then 0 else Bytes(files[..|files| - 1]) + files[|files| - 1].size
  }

  ghost predicate WithinBudget(s: Scan) {
    && s.total == Bytes(s.out) <= 60_000_000
    && forall k :: 0 <= k < |s.out| ==> s.out[k].size <= 1_000_000
  }

  /** `total` is the size of what was collected, never over the budget; nothing is dropped. */
  lemma {:induction false} WalkStaysWithinBudget(rules: Rules, prefix: Path, entries: seq<Entry>, s: Scan)
    requires WithinBudget(s)
    ensures WithinBudget(WalkFrom(rules, prefix, entries, s)) && s.out <= WalkFrom(rules, prefix, entries, s).out
    decreases entries, 1
  {
    if entries != [] && s.total < MAX_TOTAL_BYTES {
      OneStaysWithinBudget(rules, prefix, entries[0], s);
      WalkStaysWithinBudget(rules, prefix, entries[1..], WalkOne(rules, prefix, entries[0], s));
    }
  }

  lemma {:induction false} OneStaysWithinBudget(rules: Rules, prefix: Path, e: Entry, s: Scan)
    requires WithinBudget(s)
    ensures WithinBudget(WalkOne(rules, prefix, e, s)) && s.out <= WalkOne(rules, prefix, e, s).out
    decreases e, 0
  {
    if e.Dir? {
      if !rules.skipDir(e.name) {
        WalkStaysWithinBudget(rules, prefix + [e.name], e.entries, s);
      }
    } else {
      assert (s.out + [Scanned(prefix, e)])[..|s.out|] == s.out;
    }
  }

  // -- What is collected -----------------------------------------------------

  /** Every eligible file of a listing, in walk order, budget aside. */
  function AllEligible(rules: Rules, prefix: Path, entries: seq<Entry>): seq<ScannedFile>
    decreases entries
  {
    if entries == [] then [] else
      EligibleIn(rules, prefix, entries[0]) + AllEligible(rules, prefix, entries[1..])
  }

  function EligibleIn(rules: Rules, prefix: Path, e: Entry): seq<ScannedFile>
    decreases e
  {
    if e.Dir? then if rules.skipDir(e.name) then [] else AllEligible(rules, prefix + [e.name], e.entries)
    else if Eligible(rules, e) then [Scanned(prefix, e)] else []
  }

  lemma {:induction false} BytesAppend(a: seq<ScannedFile>, b: seq<ScannedFile>)
    ensures Bytes(a + b) == Bytes(a) + Bytes(b)
  {
    if b == [] {
      assert a + b == a;
    } else {
      assert (a + b)[..|a + b| - 1] == a + b[..|b| - 1];
      BytesAppend(a, b[..|b| - 1]);
    }
  }

  /** A project that fits strictly inside the budget is collected whole, in walk order. */
  lemma {:induction false} SmallProjectIsComplete(rules: Rules, prefix: Path, entries: seq<Entry>, s: Scan)
    requires s.total + Bytes(AllEligible(rules, prefix, entries)) < 60_000_000
    ensures var r := WalkFrom(rules, prefix, entries, s);
            && r.out == s.out + AllEligible(rules, prefix, entries)
            && r.total == s.total + Bytes(AllEligible(rules, prefix, entries))
    decreases entries, 1
  {
    if entries == [] {
      assert s.out + [] == s.out;
    } else {
      var first, rest := EligibleIn(rules, prefix, entries[0]), AllEligible(rules, prefix, entries[1..]);
      BytesAppend(first, rest);
      SmallEntryIsComplete(rules, prefix, entries[0], s);
      SmallProjectIsComplete(rules, prefix, entries[1..], WalkOne(rules, prefix, entries[0], s));
      assert s.out + (first + rest) == s.out + first + rest;
    }
  }

  lemma {:induction false} SmallEntryIsComplete(rules: Rules, prefix: Path, e: Entry, s: Scan)
    requires s.total + Bytes(EligibleIn(rules, prefix, e)) < 60_000_000
    ensures var r := WalkOne(rules, prefix, e, s);
            && r.out == s.out + EligibleIn(rules, prefix, e)
            && r.total == s.total + Bytes(EligibleIn(rules, prefix, e))
    decreases e, 0
  {
    if e.Dir? {
      if !rules.skipDir(e.name) {
        SmallProjectIsComplete(rules, prefix + [e.name], e.entries, s);
      } else {
        assert s.out + [] == s.out;
      }
    } else if Eligible(rules, e) {
      assert [Scanned(prefix, e)][..0] == [];
    } else {
      assert s.out + [] == s.out;
    }
  }

  /** Following `rel` from a listing through directories that are not skipped leads to this file. */
  ghost predicate LeadsTo(rules: Rules, entries: seq<Entry>, rel: Path, file: Entry)
    decreases |rel|
  {
    && rel != []
    && exists k :: 0 <= k < |entries| && entries[k].name == rel[0] && LeadsOn(rules, entries[k], rel, file)
  }

  ghost predicate LeadsOn(rules: Rules, e: Entry, rel: Path, file: Entry)
    requires rel != []
    decreases |rel|, 0
  {
    if |rel| == 1 then e == file
    else e.Dir? && !rules.skipDir(e.name) && LeadsTo(rules, e.entries, rel[1..], file)
  }

  /** The file found at `rel` is worth sending: its name is not filtered, it has at most 1,000,000 bytes
      and is text. It is sent under its path from the root, with its content and time. */
  ghost predicate Sends(rules: Rules, prefix: Path, rel: Path, file: Entry, f: ScannedFile) {
    && file.File? && !rules.skipFile(file.name) && file.size <= 1_000_000 && file.text
    && f == ScannedFile(prefix + rel, file.content, file.mtime, file.size)
  }

  ghost predicate FoundBelow(rules: Rules, prefix: Path, entries: seq<Entry>, f: ScannedFile) {
    exists rel, file :: LeadsTo(rules, entries, rel, file) && Sends(rules, prefix, rel, file, f)
  }

  ghost predicate FoundIn(rules: Rules, prefix: Path, e: Entry, f: ScannedFile) {
    exists rel, file ::
      rel != [] && e.name == rel[0] && LeadsOn(rules, e, rel, file) && Sends(rules, prefix, rel, file, f)
  }

  lemma FoundBelowIff(rules: Rules, prefix: Path, entries: seq<Entry>, f: ScannedFile)
    requires entries != []
    ensures FoundBelow(rules, prefix, entries, f) <==>
            FoundIn(rules, prefix, entries[0], f) || FoundBelow(rules, prefix, entries[1..], f)
  {
    hide LeadsOn, Sends;
    if rel, file :| LeadsTo(rules, entries, rel, file) && Sends(rules, prefix, rel, file, f) {
      var k :| 0 <= k < |entries| && entries[k].name == rel[0] && LeadsOn(rules, entries[k], rel, file);
      if k > 0 {
        assert entries[1..][k - 1] == entries[k];
        assert LeadsTo(rules, entries[1..], rel, file);
      }
    }
    if rel, file :| rel != [] && entries[0].name == rel[0] && LeadsOn(rules, entries[0], rel, file) &&
                    Sends(rules, prefix, rel, file, f) {
      assert LeadsTo(rules, entries, rel, file);
    }
    if rel, file :| LeadsTo(rules, entries[1..], rel, file) && Sends(rules, prefix, rel, file, f) {
      var k :| 0 <= k < |entries[1..]| && entries[1..][k].name == rel[0] && LeadsOn(rules, entries[1..][k], rel, file);
      assert entries[k + 1] == entries[1..][k];
      assert LeadsTo(rules, entries, rel, file);
    }
  }

  /** What is eligible, said of the tree alone: exactly the files worth sending that some path leads to. */
  lemma {:induction false} EligibleIff(rules: Rules, prefix: Path, entries: seq<Entry>, f: ScannedFile)
    ensures f in AllEligible(rules, prefix, entries) <==> FoundBelow(rules, prefix, entries, f)
    decreases entries, 1
  {
    if entries != [] {
      hide LeadsTo;
      FoundBelowIff(rules, prefix, entries, f);
      EligibleOneIff(rules, prefix, entries[0], f);
      EligibleIff(rules, prefix, entries[1..], f);
    }
  }

  lemma {:induction false} EligibleOneIff(rules: Rules, prefix: Path, e: Entry, f: ScannedFile)
    ensures f in EligibleIn(rules, prefix, e) <==> FoundIn(rules, prefix, e, f)
    decreases e, 0
  {
    hide LeadsTo;
    if e.Dir? {
      if !rules.skipDir(e.name) {
        EligibleIff(rules, prefix + [e.name], e.entries, f);
      }
      FoundInDirectory(rules, prefix, e, f);
    } else {
      if Eligible(rules, e) && f == Scanned(prefix, e) {
        assert LeadsOn(rules, e, [e.name], e) && Sends(rules, prefix, [e.name], e, f);
      }
      if rel, file :| rel != [] && e.name == rel[0] && LeadsOn(rules, e, rel, file) &&
                      Sends(rules, prefix, rel, file, f) {
        assert rel == [e.name];
      }
    }
  }

  lemma FoundInDirectory(rules: Rules, prefix: Path, e: Entry, f: ScannedFile)
    requires e.Dir?
    ensures FoundIn(rules, prefix, e, f) <==>
            !rules.skipDir(e.name) && FoundBelow(rules, prefix + [e.name], e.entries, f)
  {
    hide LeadsTo;
    if rel, file :| rel != [] && e.name == rel[0] && LeadsOn(rules, e, rel, file) &&
                    Sends(rules, prefix, rel, file, f) {
      assert prefix + rel == prefix + [e.name] + rel[1..];
      assert Sends(rules, prefix + [e.name], rel[1..], file, f);
    }
    if !rules.skipDir(e.name) && FoundBelow(rules, prefix + [e.name], e.entries, f) {
      var rel, file :| LeadsTo(rules, e.entries, rel, file) && Sends(rules, prefix + [e.name], rel, file, f);
      NeverEmpty(rules, e.entries, rel, file);
      var longer := [e.name] + rel;
      assert longer[1..] == rel && prefix + longer == prefix + [e.name] + rel;
      assert LeadsOn(rules, e, longer, file) && Sends(rules, prefix, longer, file, f);
    }
  }

  lemma NeverEmpty(rules: Rules, entries: seq<Entry>, rel: Path, file: Entry)
    requires LeadsTo(rules, entries, rel, file)
    ensures rel != []
  {
  }

  /** At the budget's edge: a file that still fits is taken, one that does not is passed over and the walk
      goes on, until 60,000,000 bytes are together; then it stops, even before an empty file. */
  lemma EdgeOfBudget(rules: Rules, prefix: Path, entries: seq<Entry>, s: Scan)
    requires entries != [] && entries[0].File? && s.total <= 60_000_000
    ensures var e, r := entries[0], WalkFrom(rules, prefix, entries, s);
            var worth := !rules.skipFile(e.name) && e.size <= 1_000_000 && e.text;
            && (s.total == 60_000_000 ==> r == s)
            && (s.total < 60_000_000 && worth && s.total + e.size <= 60_000_000 ==>
                  r == WalkFrom(rules, prefix, entries[1..],
                                Scan(s.out + [ScannedFile(prefix + [e.name], e.content, e.mtime, e.size)],
                                     s.total + e.size)))
            && (s.total < 60_000_000 && (!worth || s.total + e.size > 60_000_000) ==>
                  r == WalkFrom(rules, prefix, entries[1..], s))
  {
  }

  // -- Paths are unique ------------------------------------------------------

  ghost predicate DistinctNames(entries: seq<Entry>)
    decreases entries
  {
    && (forall j, k :: 0 <= j < k < |entries| ==> entries[j].name != entries[k].name)
    && (forall k :: 0 <= k < |entries| && entries[k].Dir? ==> DistinctNames(entries[k].entries))
  }

  /** Every path collected after `base` lies below `prefix`, under one of the listed names. */
  ghost predicate Below(files: seq<ScannedFile>, base: nat, prefix: Path, names: set<string>) {
    forall k :: base <= k < |files| ==>
      && prefix < files[k].path
      && files[k].path[|prefix|] in names
  }

  ghost predicate NoneBelow(files: seq<ScannedFile>, base: nat, prefix: Path, names: set<string>) {
    forall k :: 0 <= k < |files| && k < base ==>
      !(prefix < files[k].path && files[k].path[|prefix|] in names)
  }

  ghost function Names(entries: seq<Entry>): set<string> {
    set k | 0 <= k < |entries| :: entries[k].name
  }

  lemma {:induction false} WalkLiesBelow(rules: Rules, prefix: Path, entries: seq<Entry>, s: Scan)
    ensures var r := WalkFrom(rules, prefix, entries, s);
            s.out <= r.out && Below(r.out, |s.out|, prefix, Names(entries))
    decreases entries, 1
  {
    if entries != [] && s.total < MAX_TOTAL_BYTES {
      var t := WalkOne(rules, prefix, entries[0], s);
      OneLiesBelow(rules, prefix, entries[0], s);
      WalkLiesBelow(rules, prefix, entries[1..], t);
      var r := WalkFrom(rules, prefix, entries, s);
      assert entries[0].name in Names(entries);
      forall n | n in Names(entries[1..]) ensures n in Names(entries) {
        var k :| 0 <= k < |entries[1..]| && entries[1..][k].name == n;
        assert entries[k + 1].name == n;
      }
    }
  }

  lemma {:induction false} OneLiesBelow(rules: Rules, prefix: Path, e: Entry, s: Scan)
    ensures var r := WalkOne(rules, prefix, e, s);
            s.out <= r.out && Below(r.out, |s.out|, prefix, {e.name})
    decreases e, 0
  {
    if e.Dir? && !rules.skipDir(e.name) {
      WalkLiesBelow(rules, prefix + [e.name], e.entries, s);
    }
  }

  /** Siblings with distinct names give a scan without repeated paths, which is what packaging
      relies on. */
  lemma {:induction false} WalkKeepsPathsUnique(rules: Rules, prefix: Path, entries: seq<Entry>, s: Scan)
    requires DistinctNames(entries) && UniquePaths(s.out) && NoneBelow(s.out, |s.out|, prefix, Names(entries))
    ensures UniquePaths(WalkFrom(rules, prefix, entries, s).out)
    decreases entries, 1
  {
    if entries != [] && s.total < MAX_TOTAL_BYTES {
      var e, t := entries[0], WalkOne(rules, prefix, entries[0], s);
      assert e.name in Names(entries);
      OneKeepsPathsUnique(rules, prefix, e, s);
      OneLiesBelow(rules, prefix, e, s);
      assert e.name !in Names(entries[1..]);
      forall n | n in Names(entries[1..]) ensures n in Names(entries) {
        var k :| 0 <= k < |entries[1..]| && entries[1..][k].name == n;
        assert entries[k + 1].name == n;
      }
      assert forall k :: 0 <= k < |s.out| ==> t.out[k] == s.out[k];
      WalkKeepsPathsUnique(rules, prefix, entries[1..], t);
    }
  }

  lemma {:induction false} OneKeepsPathsUnique(rules: Rules, prefix: Path, e: Entry, s: Scan)
    requires e.Dir? ==> DistinctNames(e.entries)
    requires UniquePaths(s.out) && NoneBelow(s.out, |s.out|, prefix, {e.name})
    ensures UniquePaths(WalkOne(rules, prefix, e, s).out)
    decreases e, 0
  {
    if e.Dir? {
      if !rules.skipDir(e.name) {
        forall k | 0 <= k < |s.out| ensures !(prefix + [e.name] < s.out[k].path) {
        }
        WalkKeepsPathsUnique(rules, prefix + [e.name], e.entries, s);
      }
    } else {
      var p := prefix + [e.name];
      forall k | 0 <= k < |s.out| ensures s.out[k].path != p {
        assert prefix < p && p[|prefix|] == e.name;
      }
    }
  }
}
