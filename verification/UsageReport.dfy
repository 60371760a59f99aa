/** The report built from the samples, and the per-file cache they are read through. */
module UsageReport {
  import opened Options
  import opened UsageSpec

  datatype Window = Window(period: string, tokensIn: nat, tokensOut: nat, cacheRead: nat)
  datatype Row = Row(model: string, tokensIn: nat, tokensOut: nat)
  datatype Report = Report(available: bool, windows: seq<Window>, byModel: seq<Row>)

  const WINDOWS: seq<(string, nat)> := [("hour", HOUR), ("day", DAY), ("week", WEEK), ("month", MONTH)]

  // -- Windows ---------------------------------------------------------------

  lemma WindowsAre()
    ensures WINDOWS == [("hour", 3_600_000), ("day", 86_400_000), ("week", 604_800_000), ("month", 2_592_000_000)]
  {
  }

  function WindowOf(l: seq<Sample>, now: int, period: string, window: nat): Window {
    Window(period, Total(Measure(now, window, None, In), l), Total(Measure(now, window, None, Out), l),
           Total(Measure(now, window, None, CacheRead), l))
  }

  lemma WindowSnoc(l: seq<Sample>, s: Sample, now: int, period: string, window: nat)
    ensures var w, v := WindowOf(l, now, period, window), WindowOf(l + [s], now, period, window);
            v == if InWindow(s, now, window)
                 then Window(period, w.tokensIn + s.tokensIn, w.tokensOut + s.tokensOut, w.cacheRead + s.cacheRead)
                 else w
  {
    assert [s][1..] == [];
    TotalAppend(Measure(now, window, None, In), l, [s]);
    TotalAppend(Measure(now, window, None, Out), l, [s]);
    TotalAppend(Measure(now, window, None, CacheRead), l, [s]);
  }

  method SumWindow(samples: seq<Sample>, now: int, period: string, window: nat) returns (w: Window)
    ensures w == WindowOf(samples, now, period, window)
  {
    w := Window(period, 0, 0, 0);
    hide WindowOf;
    assert w == WindowOf([], now, period, window) by { WindowOfNothing(now, period, window); }
    assert samples[..0] == [];
    for i := 0 to |samples|
      invariant w == WindowOf(samples[..i], now, period, window)
    {
      var s := samples[i];
      assert samples[..i + 1] == samples[..i] + [s];
      WindowSnoc(samples[..i], s, now, period, window);
      if now - s.ts > window || !s.reported {
        continue;
      }
      w := Window(period, w.tokensIn + s.tokensIn, w.tokensOut + s.tokensOut, w.cacheRead + s.cacheRead);
    }
    assert samples[..|samples|] == samples;
  }

  lemma WindowOfNothing(now: int, period: string, window: nat)
    ensures WindowOf([], now, period, window) == Window(period, 0, 0, 0)
  {
  }

  ghost predicate WindowsFor(windows: seq<Window>, l: seq<Sample>, now: int) {
    && |windows| == |WINDOWS|
    && forall k :: 0 <= k < |WINDOWS| ==> windows[k] == WindowOf(l, now, WINDOWS[k].0, WINDOWS[k].1)
  }

  method WindowsFromSamples(samples: seq<Sample>, now: int) returns (windows: seq<Window>)
    ensures WindowsFor(windows, samples, now)
  {
    windows := [];
    for k := 0 to |WINDOWS|
      invariant |windows| == k
      invariant forall j :: 0 <= j < k ==> windows[j] == WindowOf(samples, now, WINDOWS[j].0, WINDOWS[j].1)
    {
      var w := SumWindow(samples, now, WINDOWS[k].0, WINDOWS[k].1);
      windows := windows + [w];
    }
  }

  predicate AtMost(w: Window, v: Window) {
    w.tokensIn <= v.tokensIn && w.tokensOut <= v.tokensOut && w.cacheRead <= v.cacheRead
  }

  /** The hour is part of the day, the day of the week, the week of the month. */
  lemma LongerWindowsShowMore(windows: seq<Window>, l: seq<Sample>, now: int, j: nat, k: nat)
    requires WindowsFor(windows, l, now) && j <= k < |windows|
    ensures AtMost(windows[j], windows[k])
  {
    var narrow, wide := WINDOWS[j].1, WINDOWS[k].1;
    assert narrow <= wide;
    WindowsGrow(Measure(now, narrow, None, In), wide, l);
    WindowsGrow(Measure(now, narrow, None, Out), wide, l);
    WindowsGrow(Measure(now, narrow, None, CacheRead), wide, l);
  }

  // -- Rows per model --------------------------------------------------------

  predicate HasRow(rows: seq<Row>, model: string) {
    exists k :: 0 <= k < |rows| && rows[k].model == model
  }

  ghost predicate DistinctModels(rows: seq<Row>) {
    forall j, k :: 0 <= j < k < |rows| ==> rows[j].model != rows[k].model
  }

  predicate HasModel(l: seq<Sample>, now: int, model: string) {
    exists k :: 0 <= k < |l| && InWindow(l[k], now, MONTH) && l[k].model == model
  }

  function RowOf(l: seq<Sample>, now: int, model: string): Row {
    Row(model, Total(Measure(now, MONTH, Some(model), In), l), Total(Measure(now, MONTH, Some(model), Out), l))
  }

  /** One row for each model in use over the last month, with that model's totals. */
  ghost predicate RowsFor(rows: seq<Row>, l: seq<Sample>, now: int) {
    && DistinctModels(rows)
    && (forall k :: 0 <= k < |rows| ==> rows[k] == RowOf(l, now, rows[k].model))
    && (forall model :: HasRow(rows, model) <==> HasModel(l, now, model))
  }

  lemma RowSnoc(l: seq<Sample>, s: Sample, now: int, model: string)
    ensures var r, q := RowOf(l, now, model), RowOf(l + [s], now, model);
            q == if InWindow(s, now, MONTH) && s.model == model
                 then Row(model, r.tokensIn + s.tokensIn, r.tokensOut + s.tokensOut) else r
  {
    assert [s][1..] == [];
    TotalAppend(Measure(now, MONTH, Some(model), In), l, [s]);
    TotalAppend(Measure(now, MONTH, Some(model), Out), l, [s]);
  }

  lemma ModelOfTail(l: seq<Sample>, now: int, model: string)
    requires l != [] && HasModel(l[1..], now, model)
    ensures HasModel(l, now, model)
  {
    var k :| 0 <= k < |l[1..]| && InWindow(l[1..][k], now, MONTH) && l[1..][k].model == model;
    assert InWindow(l[k + 1], now, MONTH) && l[k + 1].model == model;
  }

  lemma {:induction false} RowOfUnused(l: seq<Sample>, now: int, model: string)
    requires !HasModel(l, now, model)
    ensures RowOf(l, now, model) == Row(model, 0, 0)
  {
    if l != [] {
      if HasModel(l[1..], now, model) {
        ModelOfTail(l, now, model);
      }
      RowOfUnused(l[1..], now, model);
    }
  }

  lemma ModelSnoc(l: seq<Sample>, s: Sample, now: int, model: string)
    ensures HasModel(l + [s], now, model) <==>
            HasModel(l, now, model) || (InWindow(s, now, MONTH) && s.model == model)
  {
    if HasModel(l, now, model) {
      var k :| 0 <= k < |l| && InWindow(l[k], now, MONTH) && l[k].model == model;
      assert (l + [s])[k] == l[k];
    }
    if InWindow(s, now, MONTH) && s.model == model {
      assert (l + [s])[|l|] == s;
    }
  }

  /** The place of a model among the rows, or their number. */
  function RowIndex(rows: seq<Row>, model: string): (k: nat)
    ensures k <= |rows| && (k < |rows| <==> HasRow(rows, model))
    ensures k < |rows| ==> rows[k].model == model
  {
    if rows == [] then 0 else
    if rows[0].model == model then 0 else
      var k := RowIndex(rows[1..], model);
      assert k < |rows| - 1 ==> rows[k + 1].model == model;
      assert forall j :: 0 < j < |rows| ==> rows[j] == rows[1..][j - 1];
      1 + k
  }

  lemma RowsSkip(rows: seq<Row>, l: seq<Sample>, now: int, s: Sample)
    requires RowsFor(rows, l, now) && !InWindow(s, now, MONTH)
    ensures RowsFor(rows, l + [s], now)
  {
    hide RowOf, HasModel, InWindow, HasRow;
    forall k | 0 <= k < |rows| ensures rows[k] == RowOf(l + [s], now, rows[k].model) {
      RowSnoc(l, s, now, rows[k].model);
    }
    forall model ensures HasRow(rows, model) <==> HasModel(l + [s], now, model) {
      ModelSnoc(l, s, now, model);
    }
  }

  lemma RowsAdd(rows: seq<Row>, l: seq<Sample>, now: int, s: Sample)
    requires RowsFor(rows, l, now) && InWindow(s, now, MONTH) && !HasRow(rows, s.model)
    ensures RowsFor(rows + [Row(s.model, s.tokensIn, s.tokensOut)], l + [s], now)
  {
    hide RowOf, HasModel, InWindow;
    var q := rows + [Row(s.model, s.tokensIn, s.tokensOut)];
    RowOfUnused(l, now, s.model);
    forall k | 0 <= k < |q| ensures q[k] == RowOf(l + [s], now, q[k].model) {
      RowSnoc(l, s, now, q[k].model);
      if k < |rows| {
        assert q[k] == rows[k] && rows[k].model != s.model;
      }
    }
    forall model ensures HasRow(q, model) <==> HasModel(l + [s], now, model) {
      ModelSnoc(l, s, now, model);
      if HasRow(rows, model) {
        var k :| 0 <= k < |rows| && rows[k].model == model;
        assert q[k].model == model;
      }
      assert q[|rows|].model == s.model;
    }
  }

  lemma RowsBump(rows: seq<Row>, l: seq<Sample>, now: int, s: Sample, i: nat)
    requires RowsFor(rows, l, now) && InWindow(s, now, MONTH) && i < |rows| && rows[i].model == s.model
    ensures RowsFor(rows[i := Row(s.model, rows[i].tokensIn + s.tokensIn, rows[i].tokensOut + s.tokensOut)],
                    l + [s], now)
  {
    hide RowOf, HasModel, InWindow;
    var q := rows[i := Row(s.model, rows[i].tokensIn + s.tokensIn, rows[i].tokensOut + s.tokensOut)];
    forall k | 0 <= k < |q| ensures q[k] == RowOf(l + [s], now, q[k].model) {
      RowSnoc(l, s, now, q[k].model);
      if k != i {
        assert q[k] == rows[k] && rows[k].model != s.model;
      }
    }
    forall model ensures HasRow(q, model) <==> HasModel(l + [s], now, model) {
      ModelSnoc(l, s, now, model);
      if HasRow(rows, model) {
        var k :| 0 <= k < |rows| && rows[k].model == model;
        assert q[k].model == model;
      }
      if HasRow(q, model) {
        var k :| 0 <= k < |q| && q[k].model == model;
        assert rows[k].model == model;
      }
      assert q[i].model == s.model && rows[i].model == s.model;
    }
  }

  method ByModelFromSamples(samples: seq<Sample>, now: int) returns (rows: seq<Row>)
    ensures RowsFor(rows, samples, now)
  {
    rows := [];
    hide RowOf, HasModel, HasRow;
    assert samples[..0] == [];
    assert RowsFor([], [], now) by { NoRows(now); }
    hide RowsFor;
    for i := 0 to |samples|
      invariant RowsFor(rows, samples[..i], now)
    {
      var s := samples[i];
      assert samples[..i + 1] == samples[..i] + [s];
      if now - s.ts > MONTH || !s.reported {
        RowsSkip(rows, samples[..i], now, s);
        continue;
      }
      var k := RowIndex(rows, s.model);
      if k < |rows| {
        RowsBump(rows, samples[..i], now, s, k);
        rows := rows[k := Row(s.model, rows[k].tokensIn + s.tokensIn, rows[k].tokensOut + s.tokensOut)];
      } else {
        RowsAdd(rows, samples[..i], now, s);
        rows := rows + [Row(s.model, s.tokensIn, s.tokensOut)];
      }
    }
    assert samples[..|samples|] == samples;
  }

  lemma NoRows(now: int)
    ensures RowsFor([], [], now)
  {
  }

  function SumRows(rows: seq<Row>): (sum: (nat, nat)) {
    if rows == [] then (0, 0) else
      var r := SumRows(rows[1..]);
      (rows[0].tokensIn + r.0, rows[0].tokensOut + r.1)
  }

  /** The rows a list of models would show for `l`. */
  function RowsOf(models: seq<string>, l: seq<Sample>, now: int): seq<Row> {
    if models == [] then [] else [RowOf(l, now, models[0])] + RowsOf(models[1..], l, now)
  }

  predicate DistinctNames(models: seq<string>) {
    models == [] || (models[0] !in models[1..] && DistinctNames(models[1..]))
  }

  lemma {:induction false} SumRowsSnoc(models: seq<string>, l: seq<Sample>, now: int, s: Sample)
    requires DistinctNames(models)
    ensures var a, b := SumRows(RowsOf(models, l, now)), SumRows(RowsOf(models, l + [s], now));
            b == if InWindow(s, now, MONTH) && s.model in models then (a.0 + s.tokensIn, a.1 + s.tokensOut) else a
  {
    if models != [] {
      hide RowOf, InWindow;
      var t := models[1..];
      SumRowsSnoc(t, l, now, s);
      RowSnoc(l, s, now, models[0]);
      assert s.model in models <==> s.model == models[0] || s.model in t;
      assert ([RowOf(l, now, models[0])] + RowsOf(t, l, now))[1..] == RowsOf(t, l, now);
      assert ([RowOf(l + [s], now, models[0])] + RowsOf(t, l + [s], now))[1..] == RowsOf(t, l + [s], now);
    }
  }

  lemma {:induction false} SumRowsOfNothing(models: seq<string>, now: int)
    ensures SumRows(RowsOf(models, [], now)) == (0, 0)
  {
    if models != [] {
      SumRowsOfNothing(models[1..], now);
      assert ([RowOf([], now, models[0])] + RowsOf(models[1..], [], now))[1..] == RowsOf(models[1..], [], now);
    }
  }

  lemma {:induction false} SumRowsIsMonth(models: seq<string>, l: seq<Sample>, now: int)
    requires DistinctNames(models)
    requires forall k :: 0 <= k < |l| && InWindow(l[k], now, MONTH) ==> l[k].model in models
    ensures var w := WindowOf(l, now, "month", MONTH);
            SumRows(RowsOf(models, l, now)) == (w.tokensIn, w.tokensOut)
    decreases |l|
  {
    if l == [] {
      SumRowsOfNothing(models, now);
    } else {
      hide InWindow, WindowOf;
      var front, s := l[..|l| - 1], l[|l| - 1];
      assert l == front + [s];
      SumRowsIsMonth(models, front, now);
      SumRowsSnoc(models, front, now, s);
      WindowSnoc(front, s, now, "month", MONTH);
    }
  }

  lemma {:induction false} RowsAreRowsOf(rows: seq<Row>, l: seq<Sample>, now: int) returns (models: seq<string>)
    requires DistinctModels(rows)
    requires forall k :: 0 <= k < |rows| ==> rows[k] == RowOf(l, now, rows[k].model)
    ensures DistinctNames(models) && rows == RowsOf(models, l, now)
    ensures forall model :: model in models <==> HasRow(rows, model)
  {
    if rows == [] {
      models := [];
    } else {
      hide RowOf;
      var t := rows[1..];
      assert forall k :: 0 <= k < |t| ==> t[k] == rows[k + 1];
      var rest := RowsAreRowsOf(t, l, now);
      models := [rows[0].model] + rest;
      assert models[1..] == rest;
      assert rows == [rows[0]] + t;
      forall model ensures model in models <==> HasRow(rows, model) {
        if HasRow(t, model) {
          var k :| 0 <= k < |t| && t[k].model == model;
          assert rows[k + 1].model == model;
        }
        if HasRow(rows, model) && model != rows[0].model {
          var k :| 0 <= k < |rows| && rows[k].model == model;
          assert t[k - 1].model == model;
        }
      }
    }
  }

  /** Nothing is lost or counted twice: the rows add up to the month. */
  lemma RowsAddUpToTheMonth(rows: seq<Row>, l: seq<Sample>, now: int)
    requires RowsFor(rows, l, now)
    ensures var w := WindowOf(l, now, "month", MONTH); SumRows(rows) == (w.tokensIn, w.tokensOut)
  {
    var models := RowsAreRowsOf(rows, l, now);
    forall k | 0 <= k < |l| && InWindow(l[k], now, MONTH) ensures l[k].model in models {
      assert HasModel(l, now, l[k].model);
      assert HasRow(rows, l[k].model);
    }
    SumRowsIsMonth(models, l, now);
  }
}
