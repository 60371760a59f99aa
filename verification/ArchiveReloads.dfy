/** Runs of an archive in which appends and loads may fail: which ids are given twice, and which entry
    is then found. */
module ArchiveReloads {
  import opened Options
  import opened JsStrings
  import opened ArchiveLog
  import opened ContextArchive

  /** `FailedLoad` ends the process and reopens the session, but the log cannot be read: the error is
      logged and swallowed, and the archive goes on from nothing. */
  datatype Event = Does(op: Op) | FailedLoad

  function Next(v: Service, ev: Event): Service {
    match ev
    case Does(op) => After(v, op)
    case FailedLoad => Service(EMPTY, v.log)
  }

  function RunEvents(evs: seq<Event>): Service {
    if evs == [] then Service(EMPTY, []) else Next(RunEvents(evs[..|evs| - 1]), evs[|evs| - 1])
  }

  predicate Records(ev: Event) {
    ev.Does? && ev.op.Recording?
  }

  // -- When ids repeat -------------------------------------------------------

  /** The numbers of the ids given, in order. */
  function Given(evs: seq<Event>): seq<nat> {
    if evs == [] then [] else
      var init := evs[..|evs| - 1];
      Given(init) + if Records(evs[|evs| - 1]) then [RunEvents(init).memory.counter] else []
  }

  predicate AnyRecord(evs: seq<Event>) {
    evs != [] && (Records(evs[|evs| - 1]) || AnyRecord(evs[..|evs| - 1]))
  }

  /** The last record was lost. */
  predicate LastRecordLost(evs: seq<Event>) {
    evs != [] &&
    var last := evs[|evs| - 1];
    if Records(last) then !last.op.written else LastRecordLost(evs[..|evs| - 1])
  }

  /** The session has been reopened since the last record, and the last reopening went wrong: either
      that record was lost, or the log could not be read. */
  predicate OutOfPlace(evs: seq<Event>) {
    evs != [] &&
    var init := evs[..|evs| - 1];
    match evs[|evs| - 1]
    case FailedLoad => AnyRecord(init)
    case Does(Restarting) => LastRecordLost(init)
    case Does(Recording(_, _, _, _, _)) => false
    case Does(_) => OutOfPlace(init)
  }

  ghost predicate Distinct(l: seq<nat>) {
    forall j, k :: 0 <= j < k < |l| ==> l[j] != l[k]
  }

  ghost predicate NothingOutOfPlace(evs: seq<Event>) {
    forall j :: 0 <= j < |evs| && Records(evs[j]) ==> !OutOfPlace(evs[..j])
  }

  /** The number after the last one given. */
  function NextNumber(given: seq<nat>): nat {
    if given == [] then 0 else given[|given| - 1] + 1
  }

  ghost predicate AllBelow(l: seq<nat>, m: nat) {
    forall k :: 0 <= k < |l| ==> l[k] < m
  }

  /** The numbering of memory and of the log after one event. */
  lemma CountersAfter(v: Service, ev: Event)
    ensures var w := Next(v, ev);
            && w.memory.counter ==
               (if Records(ev) then v.memory.counter + 1
                else if ev.FailedLoad? then 0
                else if ev.op.Restarting? then Replay(v.log).counter else v.memory.counter)
            && Replay(w.log).counter ==
               (if Records(ev) && ev.op.written && v.memory.counter >= Replay(v.log).counter
                then v.memory.counter + 1 else Replay(v.log).counter)
  {
    hide Replay, MakeId, NumberOf, SliceTo;
    if ev.Does? {
      match ev.op
      case Recording(_, _, _, _, _) =>
        var e := EntryOf(v, ev.op);
        NumOf(e, v.memory.counter);
        ReplaySnoc(v.log, EntryRow(e));
      case Marking(id, pruned, _) => ReplaySnoc(v.log, MarkRow(id, pruned));
      case Using(usage, _) => ReplaySnoc(v.log, UsageRow(usage));
      case Restarting =>
    }
  }

  /** Where the numbering stands as long as nothing was recorded out of place. */
  ghost predicate InPlace(evs: seq<Event>, given: seq<nat>, memory: nat, log: nat) {
    && Distinct(given) && AllBelow(given, NextNumber(given))
    && (AnyRecord(evs) <==> given != []) && (given != [] ==> given[0] == 0)
    && (if OutOfPlace(evs) then memory in given else memory == NextNumber(given))
    && (if LastRecordLost(evs) then log in given else log == NextNumber(given))
    && log <= NextNumber(given)
  }

  lemma OneAbove(l: seq<nat>, m: nat)
    requires AllBelow(l, m) && Distinct(l)
    ensures AllBelow(l + [m], m + 1) && Distinct(l + [m])
  {
  }

  lemma {:induction false} NumberingOfRun(evs: seq<Event>)
    requires NothingOutOfPlace(evs)
    ensures InPlace(evs, Given(evs), RunEvents(evs).memory.counter, Replay(RunEvents(evs).log).counter)
  {
    if evs != [] {
      var init, last := evs[..|evs| - 1], evs[|evs| - 1];
      assert forall j :: 0 <= j < |init| ==> init[..j] == evs[..j];
      assert evs[..|init|] == init;
      NumberingOfRun(init);
      CountersAfter(RunEvents(init), last);
      if Records(last) {
        OneAbove(Given(init), NextNumber(Given(init)));
      }
      hide Next, Replay, Distinct, AllBelow;
      assert Given(init) + [] == Given(init);
    }
  }

  lemma {:induction false} IdRepeats(evs: seq<Event>)
    requires !NothingOutOfPlace(evs)
    ensures !Distinct(Given(evs))
  {
    hide Next, Replay, OutOfPlace;
    var init := evs[..|evs| - 1];
    assert forall k :: 0 <= k < |init| ==> evs[k] == init[k] && evs[..k] == init[..k];
    assert evs[..|init|] == init;
    if !NothingOutOfPlace(init) {
      IdRepeats(init);
      assert Given(init) <= Given(evs);
    } else {
      NumberingOfRun(init);
      var k :| 0 <= k < |Given(init)| && Given(init)[k] == RunEvents(init).memory.counter;
      assert Given(evs)[k] == Given(evs)[|Given(init)|];
    }
  }

  /** Over a whole run, whatever appends and loads fail, all ids given are distinct if and only if
      nothing is recorded right after a reopening that went wrong: one before which the last record
      was lost, or one that could not read the log of a session with a record. */
  lemma IdsAreDistinctIff(evs: seq<Event>)
    ensures Distinct(Given(evs)) <==>
            forall j :: 0 <= j < |evs| && Records(evs[j]) ==> !OutOfPlace(evs[..j])
  {
    hide Next, Replay, Distinct;
    if NothingOutOfPlace(evs) {
      NumberingOfRun(evs);
    } else {
      IdRepeats(evs);
    }
  }

  /** A record whose row is lost shares its id with whatever is recorded first after the next
      restart exactly when the log's numbering was up with memory's. If nothing was recorded out of
      place before, that is so unless the record before it was lost too or the session was reopened
      out of place; the id given next has then been given even earlier. */
  lemma LostRowReusesItsId(evs: seq<Event>, lost: Op, next: Op)
    requires lost.Recording? && !lost.written && next.Recording?
    ensures var v := RunEvents(evs);
            var reopened := RunEvents(evs + [Does(lost), Does(Restarting)]);
            && (EntryOf(reopened, next).id == EntryOf(v, lost).id <==>
                  v.memory.counter == Replay(v.log).counter)
            && (NothingOutOfPlace(evs) && !LastRecordLost(evs) && !OutOfPlace(evs) ==>
                  EntryOf(reopened, next).id == EntryOf(v, lost).id)
            && (NothingOutOfPlace(evs) && LastRecordLost(evs) ==> reopened.memory.counter in Given(evs))
  {
    hide Next, Replay, MakeId, SliceTo;
    var once, twice := evs + [Does(lost)], evs + [Does(lost), Does(Restarting)];
    assert once[..|once| - 1] == evs && twice[..|twice| - 1] == once;
    CountersAfter(RunEvents(evs), Does(lost));
    CountersAfter(RunEvents(once), Does(Restarting));
    IdsTell(RunEvents(evs).memory.counter, RunEvents(twice).memory.counter);
    if NothingOutOfPlace(evs) {
      NumberingOfRun(evs);
    }
  }

  lemma IdsTell(m: nat, n: nat)
    ensures MakeId(m) == MakeId(n) <==> m == n
  {
    NumberOfMakeId(m);
    NumberOfMakeId(n);
  }

  // -- What is found under an id ---------------------------------------------

  /** The last record under an id whose row was written. */
  function LastWritten(evs: seq<Event>, id: JsString): Option<Entry> {
    if evs == [] then None else
      var init, last := evs[..|evs| - 1], evs[|evs| - 1];
      if Records(last) && last.op.written && EntryOf(RunEvents(init), last.op).id == id
        then Some(EntryOf(RunEvents(init), last.op))
      else LastWritten(init, id)
  }

  /** The log, read again, gives under `id` this entry, its mark aside, or none. */
  predicate Finds(r: State, id: JsString, e: Option<Entry>) {
    if e.Some? then e.value.id == id && Present(r, e.value) else id !in r.byId
  }

  lemma RowFinds(v: Service, ev: Event, id: JsString, e: Option<Entry>)
    requires Finds(Replay(v.log), id, e)
    ensures Finds(Replay(Next(v, ev).log), id,
                  if Records(ev) && ev.op.written && EntryOf(v, ev.op).id == id then Some(EntryOf(v, ev.op)) else e)
  {
    hide Replay, MakeId, NumberOf, SliceTo;
    if ev.Does? {
      match ev.op
      case Recording(_, _, _, _, _) =>
        NumOf(EntryOf(v, ev.op), v.memory.counter);
        ReplaySnoc(v.log, EntryRow(EntryOf(v, ev.op)));
      case Marking(g, pruned, _) => ReplaySnoc(v.log, MarkRow(g, pruned));
      case Using(usage, _) => ReplaySnoc(v.log, UsageRow(usage));
      case Restarting =>
    }
  }

  /** After any run, whatever appends and loads fail, a successful reopening finds under each id the
      last record under that id whose row was written, its mark aside: an id given again hides what
      was recorded under it before. */
  lemma {:induction false} ReopeningFindsLastWritten(evs: seq<Event>, id: JsString)
    ensures Finds(RunEvents(evs + [Does(Restarting)]).memory, id, LastWritten(evs, id))
  {
    hide Next, Replay, Finds;
    FoundInLog(evs, id);
    assert (evs + [Does(Restarting)])[..|evs|] == evs;
    RestartReads(RunEvents(evs));
  }

  lemma RestartReads(v: Service)
    ensures Next(v, Does(Restarting)).memory == Replay(v.log)
  {
  }

  lemma {:induction false} FoundInLog(evs: seq<Event>, id: JsString)
    ensures Finds(Replay(RunEvents(evs).log), id, LastWritten(evs, id))
  {
    if evs != [] {
      hide Next, Replay, Finds, SliceTo, MakeId;
      FoundInLog(evs[..|evs| - 1], id);
      RowFinds(RunEvents(evs[..|evs| - 1]), evs[|evs| - 1], id, LastWritten(evs[..|evs| - 1], id));
    }
  }

  /** For example, the first record after a failed load takes the id of the first record of all, and
      that entry is no longer found once the log can be read again. */
  lemma FailedLoadHidesTheFirst(first: Op, second: Op)
    requires first.Recording? && first.written && second.Recording? && second.written
    ensures var evs := [Does(first), FailedLoad, Does(second)];
            && !Distinct(Given(evs))
            && LastWritten(evs, MakeId(0)) ==
               Some(NewEntry(EMPTY, second.ts, second.kind, second.caption, second.content))
  {
    hide MakeId, SliceTo;
    var evs := [Does(first), FailedLoad, Does(second)];
    assert evs[..2] == [Does(first), FailedLoad] && evs[..2][..1] == [Does(first)] && [Does(first)][..0] == [];
    assert OutOfPlace(evs[..2]) && Records(evs[2]);
    IdRepeats(evs);
  }
}
