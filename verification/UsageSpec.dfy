/** Token usage read from CLI logs: which samples count, and what a cache may serve later. */
module UsageSpec {
  import opened Options

  const HOUR: nat := 3_600_000
  const DAY: nat := 24 * HOUR
  const WEEK: nat := 7 * DAY
  const MONTH: nat := 30 * DAY
  const SCAN_HORIZON: nat := 31 * DAY

  /** One usage line; `reported` is the test on the model name. */
  datatype Sample = Sample(
    ts: int, model: string, reported: bool, tokensIn: nat, tokensOut: nat, cacheRead: nat, id: Option<string>)

  predicate Expired(s: Sample, now: int) {
    now - s.ts > SCAN_HORIZON
  }

  /** In milliseconds: an hour, a day, seven days, thirty, and the thirty-one after which lines expire. */
  lemma Periods(s: Sample, now: int)
    ensures HOUR == 3_600_000 && DAY == 86_400_000 && WEEK == 604_800_000 && MONTH == 2_592_000_000
    ensures Expired(s, now) <==> s.ts + 2_678_400_000 < now
  {
  }

  /** The samples a parse at time `now` gives: lines older than 31 days are dropped. */
  function Fresh(lines: seq<Sample>, now: int): seq<Sample> {
    if lines == [] then [] else
      (if Expired(lines[0], now) then [] else [lines[0]]) + Fresh(lines[1..], now)
  }

  predicate HasId(l: seq<Sample>, id: string) {
    exists k :: 0 <= k < |l| && l[k].id == Some(id)
  }

  predicate Superseded(s: Sample, later: seq<Sample>) {
    s.id.Some? && HasId(later, s.id.value)
  }

  /** The samples that count: those without an id, and the last occurrence of each id. */
  function Kept(l: seq<Sample>): seq<Sample> {
    if l == [] then [] else
      (if Superseded(l[0], l[1..]) then [] else [l[0]]) + Kept(l[1..])
  }

  predicate InWindow(s: Sample, now: int, window: nat) {
    now - s.ts <= window && s.reported
  }

  function Live(l: seq<Sample>, now: int): seq<Sample> {
    if l == [] then [] else
      (if InWindow(l[0], now, MONTH) then [l[0]] else []) + Live(l[1..], now)
  }

  // -- Totals ----------------------------------------------------------------

  datatype Field = In | Out | CacheRead
  /** A total over a window, of one field, for one model or for all. */
  datatype Measure = Measure(now: int, window: nat, model: Option<string>, field: Field)

  function FieldOf(s: Sample, f: Field): nat {
    match f
    case In => s.tokensIn
    case Out => s.tokensOut
    case CacheRead => s.cacheRead
  }

  function Weight(m: Measure, s: Sample): nat {
    if InWindow(s, m.now, m.window) && (m.model.Some? ==> m.model.value == s.model)
    then FieldOf(s, m.field) else 0
  }

  function Total(m: Measure, l: seq<Sample>): nat {
    if l == [] then 0 else Weight(m, l[0]) + Total(m, l[1..])
  }

  lemma {:induction false} TotalAppend(m: Measure, a: seq<Sample>, b: seq<Sample>)
    ensures Total(m, a + b) == Total(m, a) + Total(m, b)
  {
    if a == [] {
      assert a + b == b;
    } else {
      assert (a + b)[1..] == a[1..] + b;
      TotalAppend(m, a[1..], b);
    }
  }

  /** One sample adds its own number to a total exactly if it reports usage, is no older than the window,
      and is of the model, if one is asked for. With `TotalAppend` that makes every total. */
  lemma OneSampleWeighs(m: Measure, s: Sample)
    ensures var counts := s.reported && m.now <= s.ts + m.window && (m.model.None? || m.model == Some(s.model));
            && (m.field.In? ==> Total(m, [s]) == if counts then s.tokensIn else 0)
            && (m.field.Out? ==> Total(m, [s]) == if counts then s.tokensOut else 0)
            && (m.field.CacheRead? ==> Total(m, [s]) == if counts then s.cacheRead else 0)
            && Total(m, []) == 0
  {
    assert [s][1..] == [];
    assert Total(m, [s]) == Weight(m, s) + Total(m, [s][1..]);
  }

  lemma {:induction false} TakeOut(m: Measure, l: seq<Sample>, k: nat)
    requires k < |l|
    ensures var rest := l[..k] + l[k + 1..];
            multiset(l) == multiset(rest) + multiset{l[k]} && Total(m, l) == Total(m, rest) + Weight(m, l[k])
  {
    assert l == l[..k] + ([l[k]] + l[k + 1..]);
    TotalAppend(m, l[..k], [l[k]] + l[k + 1..]);
    TotalAppend(m, l[..k], l[k + 1..]);
    assert ([l[k]] + l[k + 1..])[1..] == l[k + 1..];
  }

  lemma TakeOutBoth(a: seq<Sample>, b: seq<Sample>, s: Sample)
    requires multiset(a) + multiset{s} == multiset(b) + multiset{s}
    ensures multiset(a) == multiset(b)
  {
    assert (multiset(a) + multiset{s}) - multiset{s} == multiset(a);
    assert (multiset(b) + multiset{s}) - multiset{s} == multiset(b);
  }

  lemma SameLength(a: seq<Sample>, b: seq<Sample>)
    requires multiset(a) == multiset(b)
    ensures |a| == |b|
  {
    assert |a| == |multiset(a)| == |multiset(b)| == |b|;
  }

  lemma FirstIsIn(a: seq<Sample>, b: seq<Sample>) returns (k: nat)
    requires multiset(a) == multiset(b) && a != []
    ensures k < |b| && b[k] == a[0]
  {
    assert a[0] in multiset(a) && a[0] in multiset(b);
    k :| 0 <= k < |b| && b[k] == a[0];
  }

  /** Totals do not depend on the order of the samples. */
  lemma {:induction false} TotalIgnoresOrder(m: Measure, a: seq<Sample>, b: seq<Sample>)
    requires multiset(a) == multiset(b)
    ensures Total(m, a) == Total(m, b)
    decreases |a|
  {
    hide Weight, Total;
    SameLength(a, b);
    if a == [] {
      assert b == [];
    } else {
      var k := FirstIsIn(a, b);
      TakeOut(m, a, 0);
      TakeOut(m, b, k);
      TakeOutBoth(a[..0] + a[0 + 1..], b[..k] + b[k + 1..], a[0]);
      TotalIgnoresOrder(m, a[..0] + a[0 + 1..], b[..k] + b[k + 1..]);
    }
  }

  /** Only live samples weigh in any window up to a month. */
  lemma {:induction false} TotalOfLive(m: Measure, l: seq<Sample>)
    requires m.window <= MONTH
    ensures Total(m, Live(l, m.now)) == Total(m, l)
  {
    if l != [] {
      TotalOfLive(m, l[1..]);
      if InWindow(l[0], m.now, MONTH) {
        assert ([l[0]] + Live(l[1..], m.now))[1..] == Live(l[1..], m.now);
      } else {
        assert [] + Live(l[1..], m.now) == Live(l[1..], m.now);
      }
    }
  }

  /** A wider window never shows less. */
  lemma {:induction false} WindowsGrow(m: Measure, wider: nat, l: seq<Sample>)
    requires m.window <= wider
    ensures Total(m, l) <= Total(m.(window := wider), l)
  {
    if l != [] {
      WindowsGrow(m, wider, l[1..]);
    }
  }

  // -- The cache -------------------------------------------------------------

  /** Parsing early keeps whatever a later parse would keep. */
  lemma {:induction false} FreshOfFresh(lines: seq<Sample>, earlier: int, now: int)
    requires earlier <= now
    ensures Fresh(Fresh(lines, earlier), now) == Fresh(lines, now)
  {
    if lines != [] {
      FreshOfFresh(lines[1..], earlier, now);
      var rest := Fresh(lines[1..], earlier);
      if Expired(lines[0], earlier) {
        assert Fresh(lines, earlier) == rest;
      } else {
        assert ([lines[0]] + rest)[1..] == rest;
      }
    }
  }

  lemma {:induction false} FreshAppend(a: seq<Sample>, b: seq<Sample>, now: int)
    ensures Fresh(a + b, now) == Fresh(a, now) + Fresh(b, now)
  {
    if a == [] {
      assert a + b == b;
    } else {
      assert (a + b)[1..] == a[1..] + b;
      FreshAppend(a[1..], b, now);
    }
  }

  /** A parse keeps a line, in its place (`FreshAppend`), exactly if it is at most 31 days old. */
  lemma FreshOfOne(s: Sample, now: int)
    ensures Fresh([s], now) == if now <= s.ts + 2_678_400_000 then [s] else []
    ensures Fresh([], now) == []
  {
    assert [s][1..] == [];
  }

  /** No live sample whose newer versions have all expired is followed by an expired version. */
  ghost predicate Safe(l: seq<Sample>, now: int) {
    forall k :: 0 <= k < |l| && InWindow(l[k], now, MONTH) && !Superseded(l[k], Fresh(l[k + 1..], now)) ==>
      !Superseded(l[k], l[k + 1..])
  }

  lemma SafeTail(l: seq<Sample>, now: int)
    requires l != []
    ensures Safe(l, now) <==>
            && (InWindow(l[0], now, MONTH) && !Superseded(l[0], Fresh(l[1..], now)) ==> !Superseded(l[0], l[1..]))
            && Safe(l[1..], now)
  {
    hide Superseded, Fresh, InWindow;
    var t := l[1..];
    assert forall k :: 0 <= k < |t| ==> t[k] == l[k + 1] && t[k + 1..] == l[k + 2..];
    if Safe(l, now) {
      assert l[0 + 1..] == t;
      forall k | 0 <= k < |t| && InWindow(t[k], now, MONTH) && !Superseded(t[k], Fresh(t[k + 1..], now))
        ensures !Superseded(t[k], t[k + 1..])
      {
        assert l[(k + 1) + 1..] == t[k + 1..];
      }
    }
    if Safe(t, now) && (InWindow(l[0], now, MONTH) && !Superseded(l[0], Fresh(t, now)) ==> !Superseded(l[0], t)) {
      forall k | 0 <= k < |l| && InWindow(l[k], now, MONTH) && !Superseded(l[k], Fresh(l[k + 1..], now))
        ensures !Superseded(l[k], l[k + 1..])
      {
        if k > 0 {
          assert t[k - 1] == l[k] && t[(k - 1) + 1..] == l[k + 1..];
        }
      }
    }
  }

  lemma {:induction false} FreshHasFewerIds(l: seq<Sample>, now: int, id: string)
    requires HasId(Fresh(l, now), id)
    ensures HasId(l, id)
  {
    var k :| 0 <= k < |Fresh(l, now)| && Fresh(l, now)[k].id == Some(id);
    if !Expired(l[0], now) && k == 0 {
      assert l[0].id == Some(id);
    } else {
      var r := Fresh(l[1..], now);
      assert Fresh(l, now)[k] == r[if Expired(l[0], now) then k else k - 1];
      FreshHasFewerIds(l[1..], now, id);
      var j :| 0 <= j < |l[1..]| && l[1..][j].id == Some(id);
      assert l[j + 1].id == Some(id);
    }
  }

  lemma LiveHead(s: Sample, l: seq<Sample>, now: int)
    ensures Live([s] + l, now) == (if InWindow(s, now, MONTH) then [s] else []) + Live(l, now)
  {
    assert ([s] + l)[1..] == l;
  }

  /** The live samples that count are the same, whether the list was parsed now or is an earlier
      parse that still holds expired lines, if and only if the list is safe; otherwise the fresh
      parse counts more of them. */
  lemma {:induction false} CachedCountsSameIff(l: seq<Sample>, now: int)
    ensures Live(Kept(l), now) == Live(Kept(Fresh(l, now)), now) <==> Safe(l, now)
    ensures |Live(Kept(l), now)| <= |Live(Kept(Fresh(l, now)), now)|
    ensures |Live(Kept(l), now)| == |Live(Kept(Fresh(l, now)), now)| ==> Safe(l, now)
  {
    if l != [] {
      hide Safe, Superseded, Live;
      var s, t := l[0], l[1..];
      CachedCountsSameIff(t, now);
      SafeTail(l, now);
      var f := Fresh(t, now);
      if s.id.Some? && Superseded(s, f) {
        assert Superseded(s, t) by { SupersededInFresh(s, t, now); }
      }
      LiveHead(s, Kept(t), now);
      LiveHead(s, Kept(f), now);
      assert [] + Kept(t) == Kept(t) && [] + Kept(f) == Kept(f) && [] + f == f;
      assert ([s] + f)[1..] == f;
      assert Expired(s, now) ==> !InWindow(s, now, MONTH);
      assert Fresh(l, now) == if Expired(s, now) then f else [s] + f;
    }
  }

  lemma SupersededInFresh(s: Sample, t: seq<Sample>, now: int)
    requires s.id.Some? && Superseded(s, Fresh(t, now))
    ensures Superseded(s, t)
  {
    FreshHasFewerIds(t, now, s.id.value);
  }

  /** Time stamps that never decrease along the occurrences of an id make every list safe. */
  ghost predicate Rising(l: seq<Sample>) {
    forall j, k :: 0 <= j < k < |l| && l[j].id.Some? && l[j].id == l[k].id ==> l[j].ts <= l[k].ts
  }

  lemma {:induction false} FreshKeepsUnexpired(l: seq<Sample>, now: int, k: nat)
    requires k < |l| && !Expired(l[k], now)
    ensures l[k] in Fresh(l, now)
  {
    if k > 0 {
      FreshKeepsUnexpired(l[1..], now, k - 1);
    }
  }

  lemma RisingIsSafe(l: seq<Sample>, now: int)
    requires Rising(l)
    ensures Safe(l, now)
  {
    forall k | 0 <= k < |l| && InWindow(l[k], now, MONTH) && Superseded(l[k], l[k + 1..])
      ensures Superseded(l[k], Fresh(l[k + 1..], now))
    {
      var later := l[k + 1..];
      var j :| 0 <= j < |later| && later[j].id == l[k].id;
      assert later[j] == l[k + 1 + j];
      FreshKeepsUnexpired(later, now, j);
      var i :| 0 <= i < |Fresh(later, now)| && Fresh(later, now)[i] == later[j];
    }
  }

  /** Every total over every window, for every model, is the same from a safe cached list as from a
      fresh parse. */
  lemma CacheIsSoundOverTime(l: seq<Sample>, m: Measure)
    requires m.window <= MONTH && Safe(l, m.now)
    ensures Total(m, Kept(l)) == Total(m, Kept(Fresh(l, m.now)))
  {
    CachedCountsSameIff(l, m.now);
    TotalOfLive(m, Kept(l));
    TotalOfLive(m, Kept(Fresh(l, m.now)));
  }

  /** Without that, an expired line read after a recent one of the same id hides it from the cache
      alone. */
  lemma StaleAfterRecent(recent: Sample, stale: Sample, now: int)
    requires recent.id.Some? && stale.id == recent.id && InWindow(recent, now, MONTH) && Expired(stale, now)
    requires recent.tokensIn > 0
    ensures var l, m := [recent, stale], Measure(now, MONTH, None, In);
            Total(m, Kept(l)) == 0 && Total(m, Kept(Fresh(l, now))) == recent.tokensIn
  {
    var l, m := [recent, stale], Measure(now, MONTH, None, In);
    assert l[1..] == [stale] && [stale][1..] == [] && [recent][1..] == [];
    assert !Superseded(stale, []) && !Superseded(recent, []);
    assert [stale][0].id == recent.id;
    assert Superseded(recent, [stale]);
    assert Fresh([stale][1..], now) == [];
    assert Fresh([stale], now) == [];
    assert Fresh(l, now) == [recent] + Fresh([stale], now) == [recent];
    assert Kept([stale][1..]) == [] && Kept([recent][1..]) == [];
    assert Kept([stale]) == [stale] + [] == [stale];
    assert Kept([recent]) == [recent] + [] == [recent];
    assert Kept(l) == [] + Kept(l[1..]) == [stale];
    assert Total(m, [recent]) == Weight(m, recent) + Total(m, [recent][1..]);
    assert Total(m, [stale]) == Weight(m, stale) + Total(m, [stale][1..]);
  }
}
