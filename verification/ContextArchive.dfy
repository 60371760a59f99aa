/** The archive of one session: memory in front of an append-only log. */
module ContextArchive {
  import opened Options
  import opened JsStrings
  import opened ArchiveLog

  // -- One operation, in memory and on disk ----------------------------------

  /** An operation; `written` is false if the append failed, which is logged and swallowed.
      `Restarting` ends the process and reopens the session from the log, which can be read; for loads
      that fail see `ArchiveReloads`. */
  datatype Op =
    | Recording(ts: int, kind: Kind, caption: JsString, content: JsString, written: bool)
    | Marking(id: JsString, pruned: bool, written: bool)
    | Using(usage: Usage, written: bool)
    | Restarting

  datatype Service = Service(memory: State, log: seq<Row>)

  function Appended(log: seq<Row>, row: Row, written: bool): seq<Row> {
    if written then log + [row] else log
  }

  function Recorded(s: State, e: Entry): State {
    AddEntry(s, e).(counter := s.counter + 1)
  }

  function EntryOf(v: Service, op: Op): Entry
    requires op.Recording?
  {
    NewEntry(v.memory, op.ts, op.kind, op.caption, op.content)
  }

  function After(v: Service, op: Op): Service {
    match op
    case Recording(_, _, _, _, written) =>
      var e := EntryOf(v, op);
      Service(Recorded(v.memory, e), Appended(v.log, EntryRow(e), written))
    case Marking(id, pruned, written) =>
      if id in v.memory.byId
        then Service(Mark(v.memory, id, pruned), Appended(v.log, MarkRow(id, pruned), written)) else v
    case Using(usage, written) =>
      Service(v.memory.(lastUsage := Some(usage)), Appended(v.log, UsageRow(usage), written))
    case Restarting => Service(Replay(v.log), v.log)
  }

  /** Memory and log belong together: what the log has is in memory, though some of what is in
      memory may never have reached the log. */
  ghost predicate Consistent(v: Service) {
    Ordered(v.memory) && Ordered(Replay(v.log)) && Holds(v.memory, Replay(v.log))
  }

  predicate InStep(v: Service) {
    v.memory == Replay(v.log)
  }

  lemma HoldsAfterAdd(m: State, r: State, e: Entry)
    requires Ordered(m) && Ordered(r) && Holds(m, r) && e.id == MakeId(m.counter)
    ensures Holds(Recorded(m, e), r)
    ensures Holds(Recorded(m, e), AddEntry(r, e).(counter := m.counter + 1))
    ensures Recorded(m, e) != r
  {
    hide Ordered, MakeId, Present;
    AddedRow(m, e, m.counter);
    AddedRow(r, e, m.counter);
    forall k | 0 <= k < |r.entries| ensures Present(Recorded(m, e), r.entries[k]) {
      PresentAfterAdd(m, e, r.entries[k], m.counter + 1);
    }
    AddedIsPresent(m, e);
    assert e.id in Recorded(m, e).byId;
  }

  lemma AddedIsPresent(m: State, e: Entry)
    ensures Present(Recorded(m, e), e)
  {
  }

  lemma SameNumbers(m: State, r: State)
    requires Ordered(m) && Ordered(r) && m.entries == r.entries
    ensures m.counter == r.counter
  {
    hide Num, MakeId;
  }

  lemma SameAfterAddIff(m: State, r: State, e: Entry)
    requires Ordered(m) && Ordered(r) && e.id !in m.byId && e.id !in r.byId
    ensures Recorded(m, e) == AddEntry(r, e).(counter := m.counter + 1) <==> m == r
  {
    hide Ordered;
    var x, y := Recorded(m, e), AddEntry(r, e).(counter := m.counter + 1);
    if x == y {
      assert m.entries == x.entries[..|x.entries| - 1] == r.entries;
      assert m.byId == x.byId - {e.id} == r.byId;
      SameNumbers(m, r);
    }
  }

  /** A record gets an id that is not in use, and leaves memory and log in step if and only if they
      were and its row is written. */
  lemma RecordKeepsConsistent(v: Service, op: Op)
    requires Consistent(v) && op.Recording?
    ensures Consistent(After(v, op))
    ensures EntryOf(v, op).id !in v.memory.byId
    ensures InStep(After(v, op)) <==> InStep(v) && op.written
    ensures Numbered(v.memory) ==> Numbered(After(v, op).memory)
    ensures Replay(After(v, op).log).counter == if op.written then v.memory.counter + 1 else Replay(v.log).counter
  {
    hide Ordered, Numbered, MakeId, Replay, ReplayRow, Holds, SliceTo;
    var m, r, e := v.memory, Replay(v.log), EntryOf(v, op);
    HoldsCounter(m, r);
    AddedRow(m, e, m.counter);
    AddedRow(r, e, m.counter);
    HoldsAfterAdd(m, r, e);
    SameAfterAddIff(m, r, e);
    ReplaySnoc(v.log, EntryRow(e));
  }

  lemma HoldsCounter(m: State, r: State)
    requires Holds(m, r)
    ensures r.counter <= m.counter
  {
  }

  lemma HoldsAfterMark(m: State, r: State, id: JsString, pruned: bool)
    requires Holds(m, r)
    ensures Holds(Mark(m, id, pruned), r) && Holds(Mark(m, id, pruned), Mark(r, id, pruned))
  {
    var x, y := Mark(m, id, pruned), Mark(r, id, pruned);
    forall k | 0 <= k < |r.entries| ensures Present(x, r.entries[k]) && Present(x, y.entries[k]) {
      PresentAfterMark(m, r.entries[k], id, pruned);
      assert y.entries[k] == r.entries[k].(pruned := y.entries[k].pruned);
    }
  }

  lemma HoldsIgnoresUsage(m: State, r: State, a: Option<Usage>, b: Option<Usage>)
    requires Holds(m, r)
    ensures Holds(m.(lastUsage := a), r.(lastUsage := b))
  {
    forall k | 0 <= k < |r.entries| ensures Present(m.(lastUsage := a), r.entries[k]) {
      assert Present(m, r.entries[k]);
    }
  }

  lemma OrderIgnoresUsage(s: State, a: Option<Usage>)
    requires Ordered(s)
    ensures Ordered(s.(lastUsage := a)) && (Numbered(s) ==> Numbered(s.(lastUsage := a)))
  {
    hide MakeId, Num;
  }

  lemma HoldsItself(s: State)
    requires Ordered(s)
    ensures Holds(s, s)
  {
    hide MakeId, Num;
  }

  /** Every other operation keeps memory and log together, and the counters as they were, but that
      a restart takes memory back to the log. */
  lemma OtherKeepsConsistent(v: Service, op: Op)
    requires Consistent(v) && !op.Recording?
    ensures Consistent(After(v, op))
    ensures Replay(After(v, op).log).counter == Replay(v.log).counter
    ensures After(v, op).memory.counter == if op.Restarting? then Replay(v.log).counter else v.memory.counter
    ensures Numbered(v.memory) && InStep(v) ==> Numbered(After(v, op).memory)
    ensures InStep(v) && !(op.Marking? && !op.written) && !(op.Using? && !op.written) ==> InStep(After(v, op))
  {
    hide Ordered, Numbered, MakeId, Replay, Holds;
    var m, r := v.memory, Replay(v.log);
    match op
    case Marking(id, pruned, _) =>
      MarkKeepsOrder(m, id, pruned);
      MarkKeepsOrder(r, id, pruned);
      HoldsAfterMark(m, r, id, pruned);
      ReplaySnoc(v.log, MarkRow(id, pruned));
    case Using(usage, _) =>
      OrderIgnoresUsage(m, Some(usage));
      OrderIgnoresUsage(r, Some(usage));
      HoldsIgnoresUsage(m, r, Some(usage), r.lastUsage);
      HoldsIgnoresUsage(m, r, Some(usage), Some(usage));
      ReplaySnoc(v.log, UsageRow(usage));
      assert r.(lastUsage := r.lastUsage) == r;
    case Restarting => HoldsItself(r);
  }

  lemma OpKeepsConsistent(v: Service, op: Op)
    requires Consistent(v)
    ensures Consistent(After(v, op))
  {
    hide After, Consistent;
    if op.Recording? {
      RecordKeepsConsistent(v, op);
    } else {
      OtherKeepsConsistent(v, op);
    }
  }

  /** A record adds one entry at the end, with its texts cut, under the next id, which finds it; and its
      row to the log, if that is written. */
  lemma RecordingIs(v: Service, op: Op)
    requires op.Recording?
    ensures var w, e := After(v, op), EntryOf(v, op);
            && e == Entry(Lit("cx_") + PrintDecimal(v.memory.counter), op.ts, op.kind, SliceTo(op.caption, 200),
                          SliceTo(op.content, 200_000), None)
            && w.memory.entries == v.memory.entries + [e]
            && w.memory.byId == v.memory.byId[e.id := |v.memory.entries|]
            && w.memory.counter == v.memory.counter + 1 && w.memory.lastUsage == v.memory.lastUsage
            && w.log == if op.written then v.log + [EntryRow(e)] else v.log
  {
    hide SliceTo, PrintDecimal;
  }

  /** A mark changes the mark of the entry with that id, if there is one, and nothing else; its row goes
      to the log, if that is written. Without such an entry nothing happens. */
  lemma MarkingIs(v: Service, op: Op, k: nat)
    requires op.Marking? && Consistent(v) && k < |v.memory.entries|
    ensures var w, known := After(v, op), exists j :: 0 <= j < |v.memory.entries| && v.memory.entries[j].id == op.id;
            && |w.memory.entries| == |v.memory.entries| && w.memory.byId == v.memory.byId
            && w.memory.counter == v.memory.counter && w.memory.lastUsage == v.memory.lastUsage
            && w.memory.entries[k] == (if v.memory.entries[k].id == op.id
                                       then v.memory.entries[k].(pruned := Some(op.pruned)) else v.memory.entries[k])
            && w.log == if known && op.written then v.log + [MarkRow(op.id, op.pruned)] else v.log
  {
    hide Replay, MakeId, Num, Holds;
  }

  lemma UsingIs(v: Service, op: Op)
    requires op.Using?
    ensures var w := After(v, op);
            && w.memory.lastUsage == Some(op.usage)
            && w.memory.entries == v.memory.entries && w.memory.byId == v.memory.byId
            && w.memory.counter == v.memory.counter
            && w.log == if op.written then v.log + [UsageRow(op.usage)] else v.log
  {
  }

  // -- The object ------------------------------------------------------------

  class Archive {
    var entries: seq<Entry>
    var byId: map<JsString, nat>
    var counter: nat
    var lastUsage: Option<Usage>
    var loaded: bool
    var log: seq<Row>  // the file

    ghost function Memory(): State
      reads this
    {
      State(entries, byId, counter, lastUsage)
    }

    /** What the archive is: its memory, which is the replayed log until it is loaded, and its log. */
    ghost function Now(): Service
      reads this
    {
      Service(if loaded then Memory() else Replay(log), log)
    }

    ghost predicate Valid()
      reads this
    {
      Consistent(Now()) && (!loaded ==> Memory() == EMPTY)
    }

    constructor ()
      ensures Valid() && Now() == Service(EMPTY, [])
    {
      entries, byId, counter, lastUsage, loaded, log := [], map[], 0, None, false, [];
    }

    /** The process ends and another opens the same session. */
    method Restart()
      requires Valid()
      modifies this
      ensures Valid() && !loaded && Now() == After(old(Now()), Restarting)
    {
      hide Ordered, Holds, Replay;
      HoldsItself(Replay(log));
      entries, byId, counter, lastUsage, loaded := [], map[], 0, None, false;
    }

    method EnsureLoaded()
      requires Valid()
      modifies this
      ensures Valid() && loaded && Now() == old(Now())
    {
      hide Consistent;
      if loaded {
        return;
      }
      loaded := true;
      for i := 0 to |log|
        invariant loaded && log == old(log)
        invariant Memory() == Replay(log[..i])
      {
        assert log[..i + 1] == log[..i] + [log[i]];
        ReplaySnoc(log[..i], log[i]);
        LoadRow(log[i]);
      }
      assert log[..|log|] == log;
    }

    method LoadRow(row: Row)
      modifies this`entries, this`byId, this`counter, this`lastUsage
      ensures Memory() == ReplayRow(old(Memory()), row)
    {
      match row {
        case Corrupt =>
        case MarkRow(id, pruned) =>
          if id in byId && byId[id] < |entries| {
            entries := entries[byId[id] := entries[byId[id]].(pruned := Some(pruned))];
          }
        case UsageRow(usage) => lastUsage := Some(usage);
        case EntryRow(e) =>
          if e.id != [] {
            byId := byId[e.id := |entries|];
            entries := entries + [e];
            var n := NumberOf(e.id);
            if n.Some? && n.value >= counter {
              counter := n.value + 1;
            }
          }
      }
    }

    /** `append`: a failure is logged and swallowed, so `written` may be false. */
    method Append(row: Row, written: bool)
      modifies this`log
      ensures log == Appended(old(log), row, written)
    {
      if written {
        log := log + [row];
      }
    }

    /** Records an event under an id not in use; memory and log agree afterwards if and only if they
        did and the row was written. */
    method Record(ts: int, kind: Kind, caption: JsString, content: JsString, written: bool) returns (id: JsString)
      requires Valid()
      modifies this
      ensures Valid() && loaded
      ensures Now() == After(old(Now()), Recording(ts, kind, caption, content, written))
      ensures id == MakeId(old(Now()).memory.counter) && id !in old(Now()).memory.byId
      ensures InStep(Now()) <==> old(InStep(Now())) && written
    {
      hide Replay, ReplayRow, Ordered, Holds, MakeId, SliceTo, Consistent, InStep;
      EnsureLoaded();
      RecordKeepsConsistent(Now(), Recording(ts, kind, caption, content, written));
      id := MakeId(counter);
      counter := counter + 1;
      var e := Entry(id, ts, kind, SliceTo(caption, MAX_LABEL_CHARS), SliceTo(content, MAX_CONTENT_CHARS), None);
      byId := byId[id := |entries|];
      entries := entries + [e];
      Append(EntryRow(e), written);
    }

    /** Hides or shows an entry; false if there is none. */
    method SetPrunedForAgent(id: JsString, pruned: bool, written: bool) returns (found: bool)
      requires Valid()
      modifies this
      ensures Valid() && loaded
      ensures Now() == After(old(Now()), Marking(id, pruned, written))
      ensures found <==> id in old(Now()).memory.byId
      ensures Now() == old(Now()) || Marked(Now().memory, id, pruned)
      ensures old(InStep(Now())) ==>
                (InStep(Now()) <==> written || !found || Marked(old(Now()).memory, id, pruned))
    {
      hide Replay, ReplayRow, Ordered, Holds;
      EnsureLoaded();
      ghost var op := Marking(id, pruned, written);
      OtherKeepsConsistent(Now(), op);
      MarkChangesNothingIff(Memory(), id, pruned);
      hide Consistent;
      KnownIsListed(Now(), id);
      if id !in byId {
        return false;
      }
      entries := entries[byId[id] := entries[byId[id]].(pruned := Some(pruned))];
      Append(MarkRow(id, pruned), written);
      return true;
    }

    method RecordUsage(usage: Usage, written: bool)
      requires Valid()
      modifies this
      ensures Valid() && loaded
      ensures Now() == After(old(Now()), Using(usage, written))
      ensures old(InStep(Now())) ==>
                (InStep(Now()) <==> written || old(Now()).memory.lastUsage == Some(usage))
    {
      hide Replay, ReplayRow, Ordered, Holds, Consistent;
      EnsureLoaded();
      OtherKeepsConsistent(Now(), Using(usage, written));
      lastUsage := Some(usage);
      Append(UsageRow(usage), written);
    }

    method Get(id: JsString) returns (e: Option<Entry>)
      requires Valid()
      modifies this
      ensures Valid() && Now() == old(Now())
      ensures e.Some? <==> id in Now().memory.byId
      ensures e.Some? ==> e.value in Now().memory.entries && e.value.id == id
    {
      EnsureLoaded();
      hide Replay, MakeId, Num, Holds;
      e := if id in byId then Some(entries[byId[id]]) else None;
    }

    /** The first `limit` matches among the entries, newest first. */
    method Search(lower: JsString -> JsString, query: JsString, limit: int) returns (hits: seq<Entry>)
      requires Valid()
      modifies this
      ensures Valid() && Now() == old(Now())
      ensures hits == FirstOf(NewestHits(lower, Now().memory.entries, query), limit)
    {
      hide Consistent;
      EnsureLoaded();
      hits := SearchEntries(lower, entries, query, limit);
    }
  }

  lemma KnownIsListed(v: Service, id: JsString)
    requires Consistent(v)
    ensures id in v.memory.byId ==> v.memory.byId[id] < |v.memory.entries|
  {
  }

  /** The counting-down loop of `search`. */
  method SearchEntries(lower: JsString -> JsString, entries: seq<Entry>, query: JsString, limit: int)
    returns (hits: seq<Entry>)
    ensures hits == FirstOf(NewestHits(lower, entries, query), limit)
  {
    hide Hit, NewestHits;
    hits := [];
    var i := |entries| - 1;
    assert entries[..i + 1] == entries;
    while i >= 0 && |hits| < limit
      invariant -1 <= i < |entries|
      invariant hits + NewestHits(lower, entries[..i + 1], query) == NewestHits(lower, entries, query)
      invariant |hits| <= if limit > 0 then limit else 0
    {
      OlderHits(lower, entries, i, query, hits);
      if Hit(lower, entries[i], query) {
        hits := hits + [entries[i]];
      }
      i := i - 1;
    }
    NoOlderHits(lower, query);
    assert i < 0 ==> entries[..i + 1] == [];
  }

  lemma OlderHits(lower: JsString -> JsString, entries: seq<Entry>, i: nat, query: JsString, hits: seq<Entry>)
    requires i < |entries|
    ensures hits + NewestHits(lower, entries[..i + 1], query) ==
            (if Hit(lower, entries[i], query) then hits + [entries[i]] else hits)
            + NewestHits(lower, entries[..i], query)
  {
    hide Hit;
    assert entries[..i + 1][..i] == entries[..i];
  }

  lemma NoOlderHits(lower: JsString -> JsString, query: JsString)
    ensures NewestHits(lower, [], query) == []
  {
  }

  // -- Whole runs ------------------------------------------------------------

  function RunOps(ops: seq<Op>): Service {
    if ops == [] then Service(EMPTY, []) else After(RunOps(ops[..|ops| - 1]), ops[|ops| - 1])
  }

  lemma {:induction false} ReachableIsConsistent(ops: seq<Op>)
    ensures Consistent(RunOps(ops))
  {
    hide After;
    if ops != [] {
      ReachableIsConsistent(ops[..|ops| - 1]);
      OpKeepsConsistent(RunOps(ops[..|ops| - 1]), ops[|ops| - 1]);
    }
  }

  ghost predicate AllWritten(ops: seq<Op>) {
    forall k :: 0 <= k < |ops| && !ops[k].Restarting? ==> ops[k].written
  }

  /** After any sequence of operations with restarts anywhere, as long as every append succeeds, the
      state rebuilt from the log is the one in memory: entries, index, prune flags, counter and last
      usage; and the `k`-th entry ever recorded is `cx_k`. */
  lemma {:induction false} ReplayRefinesMemory(ops: seq<Op>)
    requires AllWritten(ops)
    ensures InStep(RunOps(ops)) && Numbered(RunOps(ops).memory)
  {
    if ops != [] {
      hide After, MakeId, Consistent, Numbered, InStep;
      var init, last := ops[..|ops| - 1], ops[|ops| - 1];
      ReplayRefinesMemory(init);
      ReachableIsConsistent(init);
      if last.Recording? {
        RecordKeepsConsistent(RunOps(init), last);
      } else {
        OtherKeepsConsistent(RunOps(init), last);
      }
    }
  }

  // -- Rows that are lost ----------------------------------------------------

  /** How many records since the last restart have not reached the log. */
  function LostSinceRestart(ops: seq<Op>): nat {
    if ops == [] then 0 else
      var before := LostSinceRestart(ops[..|ops| - 1]);
      match ops[|ops| - 1]
      case Restarting => 0
      case Recording(_, _, _, _, written) => if written then before else before + 1
      case _ => before
  }

  lemma EntriesAfter(v: Service, op: Op)
    ensures |After(v, op).memory.entries| ==
            if op.Recording? then |v.memory.entries| + 1
            else if op.Restarting? then |Replay(v.log).entries| else |v.memory.entries|
    ensures Consistent(v) ==>
            |Replay(After(v, op).log).entries| ==
            |Replay(v.log).entries| + if op.Recording? && op.written then 1 else 0
  {
    hide Replay, MakeId, Ordered, Holds, SliceTo;
    match op
    case Recording(_, _, _, _, written) =>
      var e := EntryOf(v, op);
      ReplaySnoc(v.log, EntryRow(e));
      if Consistent(v) {
        HoldsCounter(v.memory, Replay(v.log));
        AddedRow(Replay(v.log), e, v.memory.counter);
      }
    case Marking(id, pruned, written) => ReplaySnoc(v.log, MarkRow(id, pruned));
    case Using(usage, written) => ReplaySnoc(v.log, UsageRow(usage));
    case Restarting =>
  }

  /** Memory is ahead of the log by exactly the records lost since the last restart. */
  lemma {:induction false} MemoryIsAheadByLostRecords(ops: seq<Op>)
    ensures |RunOps(ops).memory.entries| == |Replay(RunOps(ops).log).entries| + LostSinceRestart(ops)
  {
    if ops != [] {
      hide After, Consistent, Replay;
      var init := ops[..|ops| - 1];
      MemoryIsAheadByLostRecords(init);
      ReachableIsConsistent(init);
      EntriesAfter(RunOps(init), ops[|ops| - 1]);
    }
  }

  lemma RowKeepsPresent(v: Service, op: Op, e: Entry)
    requires Consistent(v) && Present(Replay(v.log), e)
    ensures Present(Replay(After(v, op).log), e)
  {
    hide Replay, ReplayRow, MakeId, Present, Ordered, Holds, SliceTo;
    var r := Replay(v.log);
    match op
    case Recording(_, _, _, _, written) =>
      var d := EntryOf(v, op);
      HoldsCounter(v.memory, r);
      AddedRow(r, d, v.memory.counter);
      ReplaySnoc(v.log, EntryRow(d));
      PresentAfterAdd(r, d, e, v.memory.counter + 1);
    case Marking(id, pruned, written) =>
      ReplaySnoc(v.log, MarkRow(id, pruned));
      PresentAfterMark(r, e, id, pruned);
      MarkedReplay(r, id, pruned);
    case Using(usage, written) =>
      ReplaySnoc(v.log, UsageRow(usage));
      UsedReplay(r, usage, e);
    case Restarting =>
  }

  lemma MarkedReplay(r: State, id: JsString, pruned: bool)
    ensures ReplayRow(r, MarkRow(id, pruned)) == Mark(r, id, pruned)
  {
  }

  lemma UsedReplay(r: State, usage: Usage, e: Entry)
    requires Present(r, e)
    ensures Present(ReplayRow(r, UsageRow(usage)), e)
  {
  }

  lemma PresentInMemory(v: Service, e: Entry)
    requires Consistent(v) && Present(Replay(v.log), e)
    ensures Present(v.memory, e)
  {
    hide MakeId, Num, Replay;
    var r := Replay(v.log);
    var d := r.entries[r.byId[e.id]];
    assert Present(v.memory, d);
  }

  /** An entry whose row was written is there ever after, whatever rows are lost and however often the
      log is read again, and nothing of it changes but its mark. */
  lemma {:induction false} WrittenEntriesAreForever(ops: seq<Op>, n: nat)
    requires n < |ops| && ops[n].Recording? && ops[n].written
    ensures var e := EntryOf(RunOps(ops[..n]), ops[n]);
            Present(Replay(RunOps(ops).log), e) && Present(RunOps(ops).memory, e)
    decreases |ops|
  {
    hide Consistent, Present, MakeId, Replay, SliceTo;
    var init := ops[..|ops| - 1];
    var v := RunOps(init);
    ReachableIsConsistent(init);
    ReachableIsConsistent(ops);
    var e := EntryOf(RunOps(ops[..n]), ops[n]);
    if n == |ops| - 1 {
      assert ops[..n] == init;
      WrittenIsPresent(v, ops[n]);
    } else {
      assert init[..n] == ops[..n];
      WrittenEntriesAreForever(init, n);
      RowKeepsPresent(v, ops[|init|], e);
    }
    PresentInMemory(RunOps(ops), e);
  }

  lemma WrittenIsPresent(v: Service, op: Op)
    requires Consistent(v) && op.Recording? && op.written
    ensures Present(Replay(After(v, op).log), EntryOf(v, op))
  {
    hide Replay, MakeId, Ordered, Holds, SliceTo, ReplayRow;
    var e := EntryOf(v, op);
    HoldsCounter(v.memory, Replay(v.log));
    ReplaySnoc(v.log, EntryRow(e));
    AddedRow(Replay(v.log), e, v.memory.counter);
  }
}
