/** The manager's in-flight messages, and the pruning that stubs out tool outputs in place. */
module Pruning {
  import opened Options
  import opened JsStrings
  import opened ArchiveLog

  datatype Role = User | Assistant | Tool | System

  datatype Message = Message(
    role: Role,
    content: JsString,
    toolCallId: Option<string>,
    toolCallIds: seq<string>,        // ids in `tool_calls`
    archiveId: Option<JsString>,
    archiveTurn: nat,
    pruneApplied: bool)

  const MAX_LIVE_CHARS: nat := 60_000    // larger messages are stubbed at once

  datatype Settings = Settings(autoPrune: bool, keepTurns: nat, minChars: nat)

  ghost predicate Untouchable(m: Message) {
    m.role != Tool || m.archiveId.None? || m.pruneApplied
  }

  /** Hidden by the user or the agent through the archive. */
  predicate Hidden(archive: State, id: JsString) {
    id in archive.byId && archive.byId[id] < |archive.entries| &&
    archive.entries[archive.byId[id]].pruned == Some(true)
  }

  predicate Stale(settings: Settings, m: Message, turn: nat) {
    settings.autoPrune && turn - m.archiveTurn > settings.keepTurns && |m.content| > settings.minChars
  }

  predicate Oversized(settings: Settings, m: Message) {
    settings.autoPrune && |m.content| > MAX_LIVE_CHARS
  }

  /** What pruning makes of one message; `stub` renders the text that refers to the archive. */
  function PruneOne(settings: Settings, archive: State, stub: (Message, bool) -> JsString, turn: nat,
                    m: Message): Message
  {
    if m.role != Tool || m.archiveId.None? || m.pruneApplied then m
    else if !Hidden(archive, m.archiveId.value) && !Stale(settings, m, turn) && !Oversized(settings, m) then m
    else m.(content := stub(m, Oversized(settings, m)), pruneApplied := true)
  }

  function Prune(settings: Settings, archive: State, stub: (Message, bool) -> JsString, turn: nat,
                 ms: seq<Message>): (r: seq<Message>)
    ensures |r| == |ms|
    ensures forall k :: 0 <= k < |ms| ==> r[k] == PruneOne(settings, archive, stub, turn, ms[k])
  {
    seq(|ms|, k requires 0 <= k < |ms| => PruneOne(settings, archive, stub, turn, ms[k]))
  }

  /** A message apart from its text. */
  function Skeleton(m: Message): Message {
    m.(content := [], pruneApplied := false)
  }

  /** Pruning changes nothing but the text of archived tool outputs: the number of messages, their
      roles, their ids and their order stay. */
  lemma PruneKeepsShape(settings: Settings, archive: State, stub: (Message, bool) -> JsString, turn: nat,
                        ms: seq<Message>)
    ensures var r := Prune(settings, archive, stub, turn, ms);
            forall k :: 0 <= k < |ms| ==>
              && Skeleton(r[k]) == Skeleton(ms[k])
              && (r[k] != ms[k] ==>
                    ms[k].role == Tool && ms[k].archiveId.Some? && !ms[k].pruneApplied && r[k].pruneApplied)
  {
  }

  /** An output is left alone exactly when it was stubbed before or cannot be, or is neither
      hidden, nor stale, nor oversized. */
  lemma UntouchedIff(settings: Settings, archive: State, stub: (Message, bool) -> JsString, turn: nat, m: Message)
    ensures PruneOne(settings, archive, stub, turn, m) == m <==>
            Untouchable(m) ||
            (!Hidden(archive, m.archiveId.value) && !Stale(settings, m, turn) && !Oversized(settings, m))
  {
  }

  /** Pruning twice at the same turn is pruning once. */
  lemma PruneTwice(settings: Settings, archive: State, stub: (Message, bool) -> JsString, turn: nat, ms: seq<Message>)
    ensures var r := Prune(settings, archive, stub, turn, ms);
            Prune(settings, archive, stub, turn, r) == r
  {
  }

  // -- Recovery --------------------------------------------------------------

  /** The messages of a run together with the archive behind them; `outputs` remembers, for each
      message, the full output it was made from. */
  datatype Context = Context(messages: seq<Message>, archive: State, outputs: seq<JsString>)

  datatype ContextOp =
    | Result(callId: string, output: JsString, content: JsString, kind: Kind, caption: JsString, ts: int,
             turn: nat, archived: bool)
    | Say(message: Message)
    | PruneAt(turn: nat, settings: Settings)
    | SetHidden(id: JsString, hidden: bool)

  function ToolMessage(callId: string, content: JsString, archiveId: Option<JsString>, turn: nat): Message {
    Message(Tool, content, Some(callId), [], archiveId, turn, false)
  }

  function After(c: Context, stub: (Message, bool) -> JsString, op: ContextOp): Context {
    match op
    case Result(callId, output, content, kind, caption, ts, turn, archived) =>
      if archived then
        var e := NewEntry(c.archive, ts, kind, caption, output);
        Context(c.messages + [ToolMessage(callId, content, Some(e.id), turn)],
                AddEntry(c.archive, e).(counter := c.archive.counter + 1), c.outputs + [output])
      else c.(messages := c.messages + [ToolMessage(callId, content, None, turn)], outputs := c.outputs + [output])
    case Say(message) =>
      c.(messages := c.messages + [message.(archiveId := None)], outputs := c.outputs + [[]])
    case PruneAt(turn, settings) => c.(messages := Prune(settings, c.archive, stub, turn, c.messages))
    case SetHidden(id, hidden) => c.(archive := Mark(c.archive, id, hidden))
  }

  /** A run of the manager, which may open an archive with entries of earlier sessions. */
  function RunContext(archive: State, stub: (Message, bool) -> JsString, ops: seq<ContextOp>): Context {
    if ops == [] then Context([], archive, []) else
      After(RunContext(archive, stub, ops[..|ops| - 1]), stub, ops[|ops| - 1])
  }

  /** Every archived message can fetch the first 200,000 characters of its output. */
  ghost predicate Recoverable(c: Context) {
    && |c.outputs| == |c.messages|
    && Ordered(c.archive)
    && forall k :: 0 <= k < |c.messages| && c.messages[k].archiveId.Some? ==>
         var id := c.messages[k].archiveId.value;
         && id in c.archive.byId
         && c.archive.entries[c.archive.byId[id]].content == SliceTo(c.outputs[k], MAX_CONTENT_CHARS)
  }

  lemma ResultKeepsRecoverable(c: Context, stub: (Message, bool) -> JsString, op: ContextOp)
    requires Recoverable(c) && op.Result?
    ensures Recoverable(After(c, stub, op))
  {
    hide MakeId, NumberOf, SliceTo;
    AddedRow(c.archive, NewEntry(c.archive, op.ts, op.kind, op.caption, op.output), c.archive.counter);
  }

  lemma OpKeepsRecoverable(c: Context, stub: (Message, bool) -> JsString, op: ContextOp)
    requires Recoverable(c)
    ensures Recoverable(After(c, stub, op))
  {
    hide MakeId, NumberOf, SliceTo;
    match op
    case Result(_, _, _, _, _, _, _, _) => ResultKeepsRecoverable(c, stub, op);
    case Say(_) =>
    case PruneAt(turn, settings) => PruneKeepsShape(settings, c.archive, stub, turn, c.messages);
    case SetHidden(id, hidden) => MarkKeepsOrder(c.archive, id, hidden);
  }

  /** Over every run of tool results, messages, prunings and hide or show actions, on any archive
      that was opened, pruning loses nothing that the archive took in. */
  lemma {:induction false} PruningLosesNothing(archive: State, stub: (Message, bool) -> JsString, ops: seq<ContextOp>)
    requires Ordered(archive)
    ensures Recoverable(RunContext(archive, stub, ops))
  {
    hide After, Ordered;
    if ops != [] {
      hide Recoverable;
      PruningLosesNothing(archive, stub, ops[..|ops| - 1]);
      OpKeepsRecoverable(RunContext(archive, stub, ops[..|ops| - 1]), stub, ops[|ops| - 1]);
    }
  }

  /** Over a run, whatever is pruned, hidden or shown, messages are only added: none is removed, and
      none changes its role, its call ids or its archive id. */
  lemma {:induction false} ShapeOnlyGrows(archive: State, stub: (Message, bool) -> JsString, ops: seq<ContextOp>,
                                          n: nat)
    requires n <= |ops|
    ensures var early, late := RunContext(archive, stub, ops[..n]).messages, RunContext(archive, stub, ops).messages;
            && |early| <= |late|
            && forall k :: 0 <= k < |early| ==> Skeleton(late[k]) == Skeleton(early[k])
    decreases |ops|
  {
    if n == |ops| {
      assert ops[..n] == ops;
    } else {
      hide Skeleton, PruneOne;
      var init := ops[..|ops| - 1];
      assert init[..n] == ops[..n];
      ShapeOnlyGrows(archive, stub, init, n);
      var c, op := RunContext(archive, stub, init), ops[|init|];
      if op.PruneAt? {
        PruneKeepsShape(op.settings, c.archive, stub, op.turn, c.messages);
      }
    }
  }

  /** The outputs of a run are only added to, message by message. */
  lemma {:induction false} OutputsStay(archive: State, stub: (Message, bool) -> JsString, ops: seq<ContextOp>, n: nat)
    requires n <= |ops|
    ensures RunContext(archive, stub, ops[..n]).outputs <= RunContext(archive, stub, ops).outputs
    decreases |ops|
  {
    if n == |ops| {
      assert ops[..n] == ops;
    } else {
      assert ops[..|ops| - 1][..n] == ops[..n];
      OutputsStay(archive, stub, ops[..|ops| - 1], n);
    }
  }

  /** The position of the message that operation `n` adds. */
  function PlaceOf(archive: State, stub: (Message, bool) -> JsString, ops: seq<ContextOp>, n: nat): nat
    requires n < |ops|
  {
    |RunContext(archive, stub, ops[..n]).messages|
  }

  lemma JustAdded(archive: State, stub: (Message, bool) -> JsString, ops: seq<ContextOp>, n: nat)
    requires Ordered(archive) && n < |ops| && ops[n].Result? && ops[n].archived
    ensures var k, c := PlaceOf(archive, stub, ops, n), RunContext(archive, stub, ops[..n + 1]);
            && k == |c.messages| - 1 && k == |c.outputs| - 1 && c.outputs[k] == ops[n].output
            && c.messages[k].archiveId.Some? && !c.messages[k].pruneApplied
            && c.messages[k].role == Tool && c.messages[k].content == ops[n].content
            && c.messages[k].archiveTurn == ops[n].turn
  {
    assert ops[..n + 1][..n] == ops[..n];
    PruningLosesNothing(archive, stub, ops[..n]);
  }

  /** Over every run, whatever is pruned, hidden or shown later, an archived output is found under its
      message's archive id, cut to 200,000 characters: whole exactly when it has no more. */
  lemma RecoveredWholeIff(archive: State, stub: (Message, bool) -> JsString, ops: seq<ContextOp>, n: nat)
    requires Ordered(archive) && n < |ops| && ops[n].Result? && ops[n].archived
    ensures var k, c := PlaceOf(archive, stub, ops, n), RunContext(archive, stub, ops);
            && k < |c.messages| && c.messages[k].archiveId.Some?
            && var id := c.messages[k].archiveId.value;
            && id in c.archive.byId && c.archive.byId[id] < |c.archive.entries|
            && var found := c.archive.entries[c.archive.byId[id]].content;
            && found <= ops[n].output
            && (found == ops[n].output <==> |ops[n].output| <= MAX_CONTENT_CHARS)
  {
    hide RunContext, Skeleton, MakeId, Num;
    JustAdded(archive, stub, ops, n);
    ShapeOnlyGrows(archive, stub, ops, n + 1);
    OutputsStay(archive, stub, ops, n + 1);
    PruningLosesNothing(archive, stub, ops);
    var early, late := RunContext(archive, stub, ops[..n + 1]), RunContext(archive, stub, ops);
    SameArchiveId(early.messages[|early.messages| - 1], late.messages[|early.messages| - 1]);
  }

  lemma SameArchiveId(a: Message, b: Message)
    requires Skeleton(a) == Skeleton(b)
    ensures a.role == b.role && a.archiveId == b.archiveId && a.archiveTurn == b.archiveTurn
  {
    assert Skeleton(a).archiveId == a.archiveId && Skeleton(b).archiveId == b.archiveId;
  }

  /** A pruning finds the output hidden in the archive; or, if pruning goes by itself, more than
      `keepTurns` turns old and longer than `minChars`, or longer than 60,000 characters. */
  ghost predicate FallsDue(archive: State, op: ContextOp, m: Message) {
    op.PruneAt? && m.archiveId.Some? &&
    var given := op.settings;
    || (exists k :: 0 <= k < |archive.entries| &&
          archive.entries[k].id == m.archiveId.value && archive.entries[k].pruned == Some(true))
    || (given.autoPrune && m.archiveTurn + given.keepTurns < op.turn && given.minChars < |m.content|)
    || (given.autoPrune && 60_000 < |m.content|)
  }

  /** In an archive in order, hidden is the entry with that id. */
  lemma HiddenIff(archive: State, id: JsString)
    requires Ordered(archive)
    ensures Hidden(archive, id) <==>
            exists k :: 0 <= k < |archive.entries| && archive.entries[k].id == id &&
                        archive.entries[k].pruned == Some(true)
  {
    hide MakeId, Num;
  }

  /** What becomes of it then: the stub's text, which says whether the output was too large. */
  function Stubbed(stub: (Message, bool) -> JsString, given: Settings, m: Message): Message {
    m.(content := stub(m, given.autoPrune && 60_000 < |m.content|), pruneApplied := true)
  }

  ghost predicate DueAt(archive: State, stub: (Message, bool) -> JsString, ops: seq<ContextOp>, j: int, m: Message)
    requires 0 <= j < |ops|
  {
    FallsDue(RunContext(archive, stub, ops[..j]).archive, ops[j], m)
  }

  /** Operation `j` is the first after `n` that finds the message due. */
  ghost predicate FirstDue(archive: State, stub: (Message, bool) -> JsString, ops: seq<ContextOp>, n: nat,
                           m: Message, j: int)
  {
    n < j < |ops| && DueAt(archive, stub, ops, j, m) && forall i :: n < i < j ==> !DueAt(archive, stub, ops, i, m)
  }

  lemma FirstDueSnoc(archive: State, stub: (Message, bool) -> JsString, ops: seq<ContextOp>, n: nat, m: Message)
    requires n + 1 < |ops|
    ensures var init, last := ops[..|ops| - 1], |ops| - 1;
            && (forall j :: FirstDue(archive, stub, init, n, m, j) ==>
                  FirstDue(archive, stub, ops, n, m, j) && init[j] == ops[j])
            && ((forall j :: !FirstDue(archive, stub, init, n, m, j)) ==>
                  && (forall j :: FirstDue(archive, stub, ops, n, m, j) ==> j == last)
                  && (FirstDue(archive, stub, ops, n, m, last) <==> DueAt(archive, stub, ops, last, m)))
  {
    hide FallsDue, RunContext;
    var init, last := ops[..|ops| - 1], |ops| - 1;
    forall j | n < j < last
      ensures DueAt(archive, stub, init, j, m) == DueAt(archive, stub, ops, j, m) && init[j] == ops[j]
    {
      assert init[..j] == ops[..j] && init[j] == ops[j];
    }
    hide DueAt;
    if forall j :: !FirstDue(archive, stub, init, n, m, j) {
      NoFirstNone(archive, stub, init, n, m, last);
    }
  }

  lemma {:induction false} NoFirstNone(archive: State, stub: (Message, bool) -> JsString, ops: seq<ContextOp>,
                                       n: nat, m: Message, upto: nat)
    requires upto <= |ops| && forall j :: !FirstDue(archive, stub, ops, n, m, j)
    ensures forall i :: n < i < upto ==> !DueAt(archive, stub, ops, i, m)
  {
    hide DueAt;
    if upto > 0 {
      NoFirstNone(archive, stub, ops, n, m, upto - 1);
      assert !FirstDue(archive, stub, ops, n, m, upto - 1);
    }
  }

  /** Over every run, an archived output keeps its text until the first pruning at which it is hidden,
      out of date or too large; that one puts the stub in its place, which then stays. */
  lemma {:induction false} StubbedIff(archive: State, stub: (Message, bool) -> JsString, ops: seq<ContextOp>, n: nat)
    requires Ordered(archive) && n < |ops| && ops[n].Result? && ops[n].archived
    ensures var k, c := PlaceOf(archive, stub, ops, n), RunContext(archive, stub, ops);
            var m := RunContext(archive, stub, ops[..n + 1]).messages;
            && k < |c.messages| && k < |m| && m[k].content == ops[n].content && !m[k].pruneApplied
            && m[k].role == Tool && m[k].archiveId.Some? && m[k].archiveTurn == ops[n].turn
            && (forall j :: FirstDue(archive, stub, ops, n, m[k], j) ==>
                  c.messages[k] == Stubbed(stub, ops[j].settings, m[k]))
            && ((forall j :: !FirstDue(archive, stub, ops, n, m[k], j)) ==> c.messages[k] == m[k])
    decreases |ops|
  {
    hide RunContext, Ordered, After, DueAt, Skeleton;
    JustAdded(archive, stub, ops, n);
    if n + 1 == |ops| {
      assert ops[..n + 1] == ops;
    } else {
      LastOp(archive, stub, ops);
      var init, last := ops[..|ops| - 1], |ops| - 1;
      assert init[..n + 1] == ops[..n + 1] && init[..n] == ops[..n];
      StubbedIff(archive, stub, init, n);
      var k, c := PlaceOf(archive, stub, ops, n), RunContext(archive, stub, init);
      var m := RunContext(archive, stub, ops[..n + 1]).messages[k];
      FirstDueSnoc(archive, stub, ops, n, m);
      OneFirst(archive, stub, ops, n, m);
      PruningLosesNothing(archive, stub, init);
      StepOfOne(c, stub, ops[last], k);
      DueNow(archive, stub, ops, m);
      hide FirstDue, FallsDue;
    }
  }

  lemma DueNow(archive: State, stub: (Message, bool) -> JsString, ops: seq<ContextOp>, m: Message)
    requires ops != []
    ensures DueAt(archive, stub, ops, |ops| - 1, m) <==>
            FallsDue(RunContext(archive, stub, ops[..|ops| - 1]).archive, ops[|ops| - 1], m)
  {
  }

  lemma OneFirst(archive: State, stub: (Message, bool) -> JsString, ops: seq<ContextOp>, n: nat, m: Message)
    ensures forall i, j :: FirstDue(archive, stub, ops, n, m, i) && FirstDue(archive, stub, ops, n, m, j) ==> i == j
  {
    hide DueAt;
  }

  lemma LastOp(archive: State, stub: (Message, bool) -> JsString, ops: seq<ContextOp>)
    requires ops != []
    ensures RunContext(archive, stub, ops) ==
            After(RunContext(archive, stub, ops[..|ops| - 1]), stub, ops[|ops| - 1])
  {
  }

  lemma StepOfOne(c: Context, stub: (Message, bool) -> JsString, op: ContextOp, k: nat)
    requires k < |c.messages| && c.messages[k].role == Tool && c.messages[k].archiveId.Some? && Ordered(c.archive)
    ensures k < |After(c, stub, op).messages|
    ensures var m, r := c.messages[k], After(c, stub, op).messages[k];
            && r.role == m.role && r.archiveId == m.archiveId
            && r == if !m.pruneApplied && FallsDue(c.archive, op, m) then Stubbed(stub, op.settings, m) else m
  {
    hide MakeId, NumberOf;
    var m := c.messages[k];
    HiddenIff(c.archive, m.archiveId.value);
    hide Ordered, Hidden;
  }

  /** What a tool result adds: its message, answering its call, and its output in the archive if that is
      to be archived; nothing is archived otherwise. */
  lemma ResultAdds(c: Context, stub: (Message, bool) -> JsString, op: ContextOp)
    requires op.Result?
    ensures var r := After(c, stub, op);
            && |r.messages| == |c.messages| + 1 && c.messages <= r.messages
            && var m := r.messages[|c.messages|];
            && m.role == Tool && m.toolCallId == Some(op.callId) && m.toolCallIds == []
            && m.content == op.content && m.archiveTurn == op.turn && !m.pruneApplied
            && (!op.archived ==> m.archiveId == None && r.archive == c.archive)
            && (op.archived ==>
                  && m.archiveId == Some(MakeId(c.archive.counter))
                  && r.archive.counter == c.archive.counter + 1
                  && |r.archive.entries| == |c.archive.entries| + 1 && c.archive.entries <= r.archive.entries
                  && var e := r.archive.entries[|c.archive.entries|];
                  && e.id == MakeId(c.archive.counter) && e.ts == op.ts && e.kind == op.kind && e.pruned == None
                  && e.caption == SliceTo(op.caption, 200) && e.content == SliceTo(op.output, 200_000))
  {
    hide MakeId, SliceTo;
  }
}
