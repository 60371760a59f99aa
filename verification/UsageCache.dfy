/** Reading usage through the file cache: old parses serve later reports. */
module UsageCache {
  import opened Options
  import opened UsageSpec
  import opened UsageReader
  import opened UsageReport

  datatype Stamp = Stamp(mtime: int, size: nat)
  /** A log file: its stamp, the usage samples its lines hold, and whether it can be read. */
  datatype LogFile = LogFile(stamp: Stamp, lines: seq<Sample>, readable: bool)
  datatype CacheEntry = CacheEntry(stamp: Stamp, samples: seq<Sample>)
  /** What an entry was parsed from, and when. */
  datatype Origin = Origin(lines: seq<Sample>, at: int)

  type Disk = map<string, LogFile>

  ghost predicate Sound(hits: map<string, CacheEntry>, origin: map<string, Origin>) {
    && hits.Keys == origin.Keys
    && forall p :: p in hits ==> hits[p].samples == Fresh(origin[p].lines, origin[p].at)
  }

  ghost predicate NoLaterThan(origin: map<string, Origin>, now: int) {
    forall p :: p in origin ==> origin[p].at <= now
  }

  /** A file whose modification time and size are as cached still has the content that was parsed. */
  ghost predicate StampsTell(hits: map<string, CacheEntry>, origin: map<string, Origin>, disk: Disk) {
    forall p :: p in hits && p in origin && p in disk && hits[p].stamp == disk[p].stamp ==>
      origin[p].lines == disk[p].lines
  }

  /** `out` is as good as a parse of `lines` at time `now`. */
  ghost predicate AsGoodAs(out: seq<Sample>, lines: seq<Sample>, now: int) {
    Fresh(out, now) == Fresh(lines, now) && Thinned(out, lines)
  }

  lemma FreshIsAsGood(lines: seq<Sample>, at: int, now: int)
    requires at <= now
    ensures AsGoodAs(Fresh(lines, at), lines, now)
  {
    FreshOfFresh(lines, at, now);
    FreshIsThinned(lines, at);
  }

  method ParseLines(lines: seq<Sample>, now: int) returns (out: seq<Sample>)
    ensures out == Fresh(lines, now)
  {
    out := [];
    assert lines[..0] == [];
    for i := 0 to |lines|
      invariant out == Fresh(lines[..i], now)
    {
      assert lines[..i + 1] == lines[..i] + [lines[i]];
      FreshAppend(lines[..i], [lines[i]], now);
      assert [lines[i]][1..] == [];
      if !Expired(lines[i], now) {
        out := out + [lines[i]];
      }
    }
    assert lines[..|lines|] == lines;
  }

  // -- One scan --------------------------------------------------------------

  function LinesAt(disk: Disk, path: string): seq<Sample> {
    if path in disk then disk[path].lines else []
  }

  function AllLines(walk: seq<string>, disk: Disk): seq<Sample> {
    if walk == [] then [] else AllLines(walk[..|walk| - 1], disk) + LinesAt(disk, walk[|walk| - 1])
  }

  lemma {:induction false} AllLinesAppend(a: seq<string>, b: seq<string>, disk: Disk)
    ensures AllLines(a + b, disk) == AllLines(a, disk) + AllLines(b, disk)
  {
    hide LinesAt;
    if b == [] {
      assert a + b == a;
    } else {
      assert (a + b)[..|a + b| - 1] == a + b[..|b| - 1];
      AllLinesAppend(a, b[..|b| - 1], disk);
    }
  }

  /** The lines of a walk are those of its files, in order (`AllLinesAppend`); a file that is gone has none. */
  lemma AllLinesOfOne(path: string, disk: Disk)
    ensures AllLines([path], disk) == if path in disk then disk[path].lines else []
    ensures AllLines([], disk) == []
  {
    assert [path][..0] == [];
  }

  /** Every file of the walk can be read, and none has a line newer than its modification time. */
  ghost predicate Orderly(walk: seq<string>, disk: Disk) {
    forall k :: 0 <= k < |walk| && walk[k] in disk ==>
      disk[walk[k]].readable && forall j :: 0 <= j < |disk[walk[k]].lines| ==>
        disk[walk[k]].lines[j].ts <= disk[walk[k]].stamp.mtime
  }

  lemma {:induction false} OldFilesHoldNothing(lines: seq<Sample>, now: int)
    requires forall j :: 0 <= j < |lines| ==> Expired(lines[j], now)
    ensures Fresh(lines, now) == []
  {
    if lines != [] {
      OldFilesHoldNothing(lines[1..], now);
    }
  }

  lemma {:induction false} NothingIsThinned(lines: seq<Sample>)
    ensures Thinned([], lines)
  {
    if lines != [] {
      NothingIsThinned(lines[1..]);
    }
  }

  lemma GoodAppend(a: seq<Sample>, x: seq<Sample>, b: seq<Sample>, y: seq<Sample>, now: int)
    requires AsGoodAs(a, x, now) && AsGoodAs(b, y, now)
    ensures AsGoodAs(a + b, x + y, now)
  {
    FreshAppend(a, b, now);
    FreshAppend(x, y, now);
    ThinnedAppend(a, x, b, y);
  }

  /** The walk leaves out files not touched for 31 days; they hold nothing recent. */
  lemma SkippedFileHoldsNothing(walk: seq<string>, disk: Disk, k: nat, now: int)
    requires Orderly(walk, disk) && k < |walk| && walk[k] in disk
    requires disk[walk[k]].stamp.mtime < now - SCAN_HORIZON
    ensures AsGoodAs([], disk[walk[k]].lines, now)
  {
    OldFilesHoldNothing(disk[walk[k]].lines, now);
    NothingIsThinned(disk[walk[k]].lines);
  }

  class FileCache {
    var hits: map<string, CacheEntry>
    ghost var origin: map<string, Origin>

    ghost predicate Valid()
      reads this
    {
      Sound(hits, origin)
    }

    ghost predicate Ready(disk: Disk, now: int)
      reads this
    {
      Valid() && NoLaterThan(origin, now) && StampsTell(hits, origin, disk)
    }

    constructor ()
      ensures Valid() && hits == map[] && origin == map[]
    {
      hits := map[];
      origin := map[];
    }

    /** The samples of a file: from the cache if its stamp is the same, else parsed and cached. */
    method SamplesFromFile(path: string, disk: Disk, now: int) returns (out: seq<Sample>)
      requires Ready(disk, now)
      modifies this
      ensures Ready(disk, now)
      ensures path in old(hits) && path in disk && old(hits)[path].stamp == disk[path].stamp ==>
                out == old(hits)[path].samples && hits == old(hits)
      ensures path in disk && disk[path].readable &&
              (path in old(hits) ==> old(hits)[path].stamp != disk[path].stamp) ==>
                out == Fresh(disk[path].lines, now) && hits == old(hits)[path := CacheEntry(disk[path].stamp, out)]
      ensures path in disk && !disk[path].readable &&
              (path in old(hits) ==> old(hits)[path].stamp != disk[path].stamp) ==>
                out == [] && hits == old(hits)
      ensures path in disk && disk[path].readable ==> AsGoodAs(out, disk[path].lines, now)
      ensures path !in disk ==> out == [] && hits == old(hits)
    {
      if path !in disk {
        return [];
      }
      var st := disk[path].stamp;
      if path in hits && hits[path].stamp == st {
        FreshIsAsGood(origin[path].lines, origin[path].at, now);
        return hits[path].samples;
      }
      if !disk[path].readable {
        return [];
      }
      out := ParseLines(disk[path].lines, now);
      FreshIsAsGood(disk[path].lines, now, now);
      hits := hits[path := CacheEntry(st, out)];
      origin := origin[path := Origin(disk[path].lines, now)];
    }

    /** All samples of the walk, file by file; files that have not changed for 31 days are left out. */
    method Scan(walk: seq<string>, disk: Disk, now: int) returns (scanned: seq<Sample>)
      requires Ready(disk, now)
      modifies this
      ensures Ready(disk, now)
      ensures Orderly(walk, disk) ==> AsGoodAs(scanned, AllLines(walk, disk), now)
    {
      scanned := [];
      hide AsGoodAs, Orderly, Sound, NoLaterThan, StampsTell;
      assert walk[..0] == [];
      assert AsGoodAs([], [], now) by { FreshIsAsGood([], now, now); }
      for i := 0 to |walk|
        invariant Ready(disk, now)
        invariant Orderly(walk, disk) ==> AsGoodAs(scanned, AllLines(walk[..i], disk), now)
      {
        var path := walk[i];
        assert walk[..i + 1][..i] == walk[..i] && walk[..i + 1][i] == path;
        var out: seq<Sample> := [];
        if path in disk && disk[path].stamp.mtime < now - SCAN_HORIZON {
          if Orderly(walk, disk) {
            SkippedFileHoldsNothing(walk, disk, i, now);
          }
        } else {
          out := SamplesFromFile(path, disk, now);
          if path !in disk {
            FreshIsAsGood([], now, now);
          } else if Orderly(walk, disk) {
            OrderlyIsReadable(walk, disk, i);
          }
        }
        if Orderly(walk, disk) {
          GoodAppend(scanned, AllLines(walk[..i], disk), out, LinesAt(disk, path), now);
        }
        scanned := scanned + out;
      }
      assert walk[..|walk|] == walk;
    }

    /** The whole report. Whatever was cached before, its totals are what parsing every file now
        would give. */
    method ReadClaude(walk: seq<string>, disk: Disk, now: int) returns (report: Report, ghost scanned: seq<Sample>)
      requires Ready(disk, now)
      modifies this
      ensures Ready(disk, now)
      ensures Reports(report, Kept(scanned), now)
      ensures report.available <==>
              exists k :: 0 <= k < |Kept(scanned)| && Kept(scanned)[k].reported &&
                          (Kept(scanned)[k].tokensIn > 0 || Kept(scanned)[k].tokensOut > 0)
      ensures var lines := AllLines(walk, disk);
              Orderly(walk, disk) ==>
                && AsGoodAs(scanned, lines, now)
                && (Rising(lines) ==> Reports(report, Kept(Fresh(lines, now)), now))
    {
      hide Orderly, Reports, WindowsFor, RowsFor, Sound, NoLaterThan, StampsTell, HasReportedUsage;
      var all := Scan(walk, disk, now);
      scanned := all;
      var samples := Gather(all);
      var windows := WindowsFromSamples(samples, now);
      var rows := ByModelFromSamples(samples, now);
      var available := HasReportedUsage(samples);
      report := Report(available, windows, rows);
      ReportOfBag(report, samples, Kept(scanned), now);
      UsageIs(Kept(scanned));
      if Orderly(walk, disk) && Rising(AllLines(walk, disk)) {
        ReportIsTimely(AllLines(walk, disk), scanned, report, now);
      }
    }
  }

  lemma OrderlyIsReadable(walk: seq<string>, disk: Disk, k: nat)
    requires Orderly(walk, disk) && k < |walk| && walk[k] in disk
    ensures disk[walk[k]].readable
  {
  }

  // -- The report is the one a fresh parse gives -----------------------------

  lemma {:induction false} LiveCounts(l: seq<Sample>, now: int, s: Sample)
    ensures multiset(Live(l, now))[s] == if InWindow(s, now, MONTH) then multiset(l)[s] else 0
  {
    if l != [] {
      LiveCounts(l[1..], now, s);
      assert l == [l[0]] + l[1..];
    }
  }

  lemma LiveBag(a: seq<Sample>, b: seq<Sample>, now: int)
    requires multiset(a) == multiset(b)
    ensures multiset(Live(a, now)) == multiset(Live(b, now))
  {
    forall s ensures multiset(Live(a, now))[s] == multiset(Live(b, now))[s] {
      LiveCounts(a, now, s);
      LiveCounts(b, now, s);
    }
  }

  lemma SameTotal(a: seq<Sample>, b: seq<Sample>, m: Measure)
    requires m.window <= MONTH && multiset(Live(a, m.now)) == multiset(Live(b, m.now))
    ensures Total(m, a) == Total(m, b)
  {
    TotalOfLive(m, a);
    TotalOfLive(m, b);
    TotalIgnoresOrder(m, Live(a, m.now), Live(b, m.now));
  }

  lemma SameWindow(a: seq<Sample>, b: seq<Sample>, now: int, period: string, window: nat)
    requires window <= MONTH && multiset(Live(a, now)) == multiset(Live(b, now))
    ensures WindowOf(a, now, period, window) == WindowOf(b, now, period, window)
  {
    SameTotal(a, b, Measure(now, window, None, In));
    SameTotal(a, b, Measure(now, window, None, Out));
    SameTotal(a, b, Measure(now, window, None, CacheRead));
  }

  lemma SameModel(a: seq<Sample>, b: seq<Sample>, now: int, model: string)
    requires multiset(Live(a, now)) == multiset(Live(b, now)) && HasModel(a, now, model)
    ensures HasModel(b, now, model)
  {
    var k :| 0 <= k < |a| && InWindow(a[k], now, MONTH) && a[k].model == model;
    assert a[k] in multiset(a);
    LiveCounts(a, now, a[k]);
    LiveCounts(b, now, a[k]);
    assert a[k] in multiset(b);
    var j :| 0 <= j < |b| && b[j] == a[k];
  }

  /** The windows and rows of the report are the totals of `l`. */
  ghost predicate Reports(report: Report, l: seq<Sample>, now: int) {
    WindowsFor(report.windows, l, now) && RowsFor(report.byModel, l, now)
  }

  lemma SameReport(report: Report, a: seq<Sample>, b: seq<Sample>, now: int)
    requires multiset(Live(a, now)) == multiset(Live(b, now)) && Reports(report, a, now)
    ensures Reports(report, b, now)
  {
    hide Live, WindowOf, RowOf, HasModel, HasRow;
    var windows, rows := report.windows, report.byModel;
    forall k | 0 <= k < |WINDOWS| ensures windows[k] == WindowOf(b, now, WINDOWS[k].0, WINDOWS[k].1) {
      SameWindow(a, b, now, WINDOWS[k].0, WINDOWS[k].1);
    }
    forall k | 0 <= k < |rows| ensures rows[k] == RowOf(b, now, rows[k].model) {
      SameRow(a, b, now, rows[k].model);
    }
    forall model ensures HasRow(rows, model) <==> HasModel(b, now, model) {
      if HasModel(a, now, model) { SameModel(a, b, now, model); }
      if HasModel(b, now, model) { SameModel(b, a, now, model); }
    }
  }

  lemma SameRow(a: seq<Sample>, b: seq<Sample>, now: int, model: string)
    requires multiset(Live(a, now)) == multiset(Live(b, now))
    ensures RowOf(a, now, model) == RowOf(b, now, model)
  {
    SameTotal(a, b, Measure(now, MONTH, Some(model), In));
    SameTotal(a, b, Measure(now, MONTH, Some(model), Out));
  }

  lemma ReportOfBag(report: Report, a: seq<Sample>, b: seq<Sample>, now: int)
    requires multiset(a) == multiset(b)
    requires WindowsFor(report.windows, a, now) && RowsFor(report.byModel, a, now)
    ensures Reports(report, b, now) && (HasReportedUsage(a) <==> HasReportedUsage(b))
  {
    hide WindowsFor, RowsFor;
    LiveBag(a, b, now);
    SameReport(report, a, b, now);
    forall k | 0 <= k < |a| && Uses(a[k]) ensures HasReportedUsage(b) {
      assert a[k] in multiset(b);
      var j :| 0 <= j < |b| && b[j] == a[k];
    }
    forall k | 0 <= k < |b| && Uses(b[k]) ensures HasReportedUsage(a) {
      assert b[k] in multiset(a);
      var j :| 0 <= j < |a| && a[j] == b[k];
    }
  }

  lemma ReportIsTimely(lines: seq<Sample>, scanned: seq<Sample>, report: Report, now: int)
    requires Rising(lines) && AsGoodAs(scanned, lines, now) && Reports(report, Kept(scanned), now)
    ensures Reports(report, Kept(Fresh(lines, now)), now)
  {
    hide Reports, Kept, Live, Fresh;
    ThinnedRises(scanned, lines);
    RisingIsSafe(scanned, now);
    CachedCountsSameIff(scanned, now);
    SameReport(report, Kept(scanned), Kept(Fresh(lines, now)), now);
  }

  // -- Availability is not limited to a window -------------------------------

  predicate Uses(s: Sample) {
    s.reported && (s.tokensIn > 0 || s.tokensOut > 0)
  }

  predicate HasReportedUsage(l: seq<Sample>) {
    exists k :: 0 <= k < |l| && Uses(l[k])
  }

  lemma UsageIs(l: seq<Sample>)
    ensures HasReportedUsage(l) <==>
            exists k :: 0 <= k < |l| && l[k].reported && (l[k].tokensIn > 0 || l[k].tokensOut > 0)
  {
    if k :| 0 <= k < |l| && l[k].reported && (l[k].tokensIn > 0 || l[k].tokensOut > 0) {
      assert Uses(l[k]);
    }
  }

  lemma SupersededWhileFresh(s: Sample, t: seq<Sample>, now: int)
    requires Rising([s] + t) && !Expired(s, now)
    ensures Superseded(s, Fresh(t, now)) <==> Superseded(s, t)
  {
    if Superseded(s, Fresh(t, now)) {
      SupersededInFresh(s, t, now);
    } else if Superseded(s, t) {
      var j :| 0 <= j < |t| && t[j].id == s.id;
      assert ([s] + t)[0] == s && ([s] + t)[j + 1] == t[j];
      FreshKeepsUnexpired(t, now, j);
    }
  }

  lemma RisingTail(l: seq<Sample>)
    requires l != [] && Rising(l)
    ensures Rising(l[1..])
  {
    assert forall k :: 0 <= k < |l[1..]| ==> l[1..][k] == l[k + 1];
  }

  /** With rising time stamps, dropping expired lines before or after choosing the last of each id
      is the same. */
  lemma {:induction false} KeptOfFresh(l: seq<Sample>, now: int)
    requires Rising(l)
    ensures Kept(Fresh(l, now)) == Fresh(Kept(l), now)
  {
    if l != [] {
      var s, t := l[0], l[1..];
      assert [s] + t == l;
      RisingTail(l);
      KeptOfFresh(t, now);
      var f := Fresh(t, now);
      if !Expired(s, now) {
        SupersededWhileFresh(s, t, now);
      }
      KeptCons(s, t);
      KeptCons(s, f);
      FreshCons(s, t, now);
      FreshCons(s, Kept(t), now);
      hide *;
      assert [] + Kept(t) == Kept(t) && [] + f == f && [] + Kept(f) == Kept(f);
    }
  }

  lemma KeptCons(s: Sample, t: seq<Sample>)
    ensures Kept([s] + t) == if Superseded(s, t) then Kept(t) else [s] + Kept(t)
  {
    assert ([s] + t)[1..] == t;
  }

  lemma FreshCons(s: Sample, t: seq<Sample>, now: int)
    ensures Fresh([s] + t, now) == if Expired(s, now) then Fresh(t, now) else [s] + Fresh(t, now)
  {
    assert ([s] + t)[1..] == t;
  }

  /** An old cache says "available" when a fresh parse would not if and only if nothing that counts
      and used tokens is younger than 31 days. */
  lemma AvailabilityOutlivesIff(l: seq<Sample>, now: int)
    requires Rising(l)
    ensures HasReportedUsage(Kept(Fresh(l, now))) ==> HasReportedUsage(Kept(l))
    ensures HasReportedUsage(Kept(l)) && !HasReportedUsage(Kept(Fresh(l, now))) <==>
            HasReportedUsage(Kept(l)) && forall k :: 0 <= k < |Kept(l)| && Uses(Kept(l)[k]) ==> Expired(Kept(l)[k], now)
  {
    KeptOfFresh(l, now);
    var kept := Kept(l);
    FreshIsThinned(kept, now);
    var f := Fresh(kept, now);
    if HasReportedUsage(f) {
      var k :| 0 <= k < |f| && Uses(f[k]);
      ThinnedIsPart(f, kept, f[k]);
      FreshIsFresh(kept, now, k);
    }
    forall k | 0 <= k < |kept| && Uses(kept[k]) && !Expired(kept[k], now) ensures HasReportedUsage(f) {
      FreshKeepsUnexpired(kept, now, k);
      var i :| 0 <= i < |f| && f[i] == kept[k];
    }
  }

  lemma {:induction false} FreshIsFresh(l: seq<Sample>, now: int, k: nat)
    requires k < |Fresh(l, now)|
    ensures !Expired(Fresh(l, now)[k], now)
  {
    if Expired(l[0], now) {
      assert Fresh(l, now) == Fresh(l[1..], now);
      FreshIsFresh(l[1..], now, k);
    } else if k > 0 {
      FreshIsFresh(l[1..], now, k - 1);
    }
  }
}
