/** The manager's turn loop: what the transcript looks like each time it is sent to a provider. */
module TurnLoop {
  import opened Options
  import opened JsStrings
  import opened ToolCalls
  import opened Pruning
  import ArchiveLog

  // -- Well-formed transcripts -----------------------------------------------

  /** The tool-call ids still waiting for their tool message at the end of a transcript; `None`
      if some tool message came out of turn or an assistant message came too early. */
  function Owed(ms: seq<Message>): Option<seq<CallId>> {
    if ms == [] then Some([]) else OwedAfter(Owed(ms[..|ms| - 1]), ms[|ms| - 1])
  }

  function OwedAfter(owed: Option<seq<CallId>>, m: Message): Option<seq<CallId>> {
    if owed.None? then None
    else match m.role
      case Assistant => if owed.value == [] then Some(m.toolCallIds) else None
      case Tool =>
        if owed.value != [] && m.toolCallId == Some(owed.value[0]) then Some(owed.value[1..]) else None
      case _ => owed
  }

  ghost predicate WellFormed(ms: seq<Message>) {
    Owed(ms) == Some([])
  }

  /** The ids of the tool messages from position `k` up to the next assistant message. */
  function AnswersFrom(ms: seq<Message>, k: nat): seq<CallId>
    requires k <= |ms|
    decreases |ms| - k
  {
    if k == |ms| || ms[k].role == Assistant then []
    else (if ms[k].role == Tool && ms[k].toolCallId.Some? then [ms[k].toolCallId.value] else [])
         + AnswersFrom(ms, k + 1)
  }

  lemma {:induction false} OwedPrefix(ms: seq<Message>, k: nat)
    requires k <= |ms| && Owed(ms).Some?
    ensures Owed(ms[..k]).Some?
    decreases |ms|
  {
    if k == |ms| {
      assert ms[..k] == ms;
    } else {
      OwedPrefix(ms[..|ms| - 1], k);
      assert ms[..|ms| - 1][..k] == ms[..k];
    }
  }

  lemma {:induction false} OwedIsAnswered(ms: seq<Message>, k: nat)
    requires WellFormed(ms) && k <= |ms| && Owed(ms[..k]).Some?
    ensures Owed(ms[..k]) == Some(AnswersFrom(ms, k))
    decreases |ms| - k
  {
    if k == |ms| {
      assert ms[..k] == ms;
    } else {
      OwedPrefix(ms, k + 1);
      assert ms[..k + 1][..k] == ms[..k];
      if ms[k].role != Assistant {
        OwedIsAnswered(ms, k + 1);
        var owed := Owed(ms[..k]).value;
        assert ms[k].role == Tool ==> owed == [owed[0]] + owed[1..];
        assert [] + AnswersFrom(ms, k + 1) == AnswersFrom(ms, k + 1);
      }
    }
  }

  /** In a well-formed transcript the tool messages after an assistant message, up to the next one,
      carry exactly its tool-call ids, in order. */
  lemma EachCallIsAnsweredOnce(ms: seq<Message>, p: nat)
    requires WellFormed(ms) && p < |ms| && ms[p].role == Assistant
    ensures AnswersFrom(ms, p + 1) == ms[p].toolCallIds
  {
    OwedPrefix(ms, p + 1);
    assert ms[..p + 1][..p] == ms[..p];
    OwedIsAnswered(ms, p + 1);
  }

  lemma OwedSnoc(ms: seq<Message>, m: Message)
    ensures Owed(ms + [m]) == OwedAfter(Owed(ms), m)
  {
    assert (ms + [m])[..|ms|] == ms;
  }

  /** Pruning the text of tool outputs leaves every pairing as it is. */
  lemma {:induction false} OwedIgnoresText(a: seq<Message>, b: seq<Message>)
    requires |a| == |b| && forall k :: 0 <= k < |a| ==> Skeleton(a[k]) == Skeleton(b[k])
    ensures Owed(a) == Owed(b)
  {
    if a != [] {
      OwedIgnoresText(a[..|a| - 1], b[..|b| - 1]);
      var x, y := a[|a| - 1], b[|b| - 1];
      assert Skeleton(x).role == Skeleton(y).role && Skeleton(x).toolCallId == Skeleton(y).toolCallId
          && Skeleton(x).toolCallIds == Skeleton(y).toolCallIds;
    }
  }

  lemma PruningKeepsOwed(settings: Settings, archive: ArchiveLog.State, stub: (Message, bool) -> JsString,
                         turn: nat, ms: seq<Message>)
    ensures Owed(Prune(settings, archive, stub, turn, ms)) == Owed(ms)
  {
    PruneKeepsShape(settings, archive, stub, turn, ms);
    OwedIgnoresText(Prune(settings, archive, stub, turn, ms), ms);
  }

  function Plain(role: Role): Message {
    Message(role, [], None, [], None, 0, false)
  }

  // -- The loop --------------------------------------------------------------

  const MAX_TURNS: nat := 25

  /** What the environment does in one tool execution: the message text, whether it is archived
      and under which id, and whether an image is shown; `throws` ends the run with an exception. */
  datatype ToolRun = ToolRun(content: JsString, archiveId: Option<JsString>, shows: bool, throws: bool)

  /** What the environment does in one turn. `abortAt` is the stream event before which the signal
      is first seen aborted, `abortBeforeTool` the tool before which it is. */
  datatype Turn = Turn(
    abortedBefore: bool, archive: ArchiveLog.State, settings: Settings,
    stream: seq<StreamEvent>, abortAt: nat, approves: bool, tools: nat -> ToolRun, abortBeforeTool: nat)

  datatype End = Finished | StoppedByUser | OutOfTurns | Crashed

  function ToolMessage(call: Call, run: ToolRun, turnNumber: nat): Message {
    Message(Tool, run.content, Some(call.id), [], run.archiveId, turnNumber, false)
  }

  /** What executing `calls` adds to the transcript. */
  function ToolMessages(calls: seq<Call>, tools: nat -> ToolRun, turnNumber: nat): seq<Message> {
    if calls == [] then [] else
      var i := |calls| - 1;
      ToolMessages(calls[..i], tools, turnNumber)
      + [ToolMessage(calls[i], tools(i), turnNumber)]
      + if tools(i).shows then [Plain(User)] else []
  }

  /** How many images the first `n` tools show. */
  function Shown(tools: nat -> ToolRun, n: nat): nat {
    if n == 0 then 0 else Shown(tools, n - 1) + if tools(n - 1).shows then 1 else 0
  }

  /** Each call gets one tool message, under its id, with what its tool gave, and right behind it a
      user's message if its tool showed an image; in the order of the calls, and nothing more. */
  lemma {:induction false} ToolMessagesAt(calls: seq<Call>, tools: nat -> ToolRun, turnNumber: nat, k: nat)
    requires k < |calls|
    ensures var r, at := ToolMessages(calls, tools, turnNumber), k + Shown(tools, k);
            && |r| == |calls| + Shown(tools, |calls|)
            && at < |r|
            && r[at].role == Tool && r[at].content == tools(k).content && r[at].toolCallId == Some(calls[k].id)
            && r[at].toolCallIds == [] && r[at].archiveId == tools(k).archiveId
            && r[at].archiveTurn == turnNumber && !r[at].pruneApplied
            && (tools(k).shows ==> at + 1 < |r| && r[at + 1] == Message(User, [], None, [], None, 0, false))
    decreases |calls|
  {
    var n := |calls| - 1;
    if k < n {
      ToolMessagesAt(calls[..n], tools, turnNumber, k);
      ShownGrows(tools, k, n);
    } else if n > 0 {
      ToolMessagesAt(calls[..n], tools, turnNumber, n - 1);
    }
  }

  lemma {:induction false} ShownGrows(tools: nat -> ToolRun, k: nat, n: nat)
    requires k < n
    ensures Shown(tools, k) + (if tools(k).shows then 1 else 0) <= Shown(tools, n)
    decreases n
  {
    if k < n - 1 {
      ShownGrows(tools, k, n - 1);
    }
  }

  // -- Images shown in between -----------------------------------------------

  /** The tool messages of the calls come first and in order, with nothing in between. */
  ghost predicate Contiguous(calls: seq<Call>, tools: nat -> ToolRun, turnNumber: nat) {
    var r := ToolMessages(calls, tools, turnNumber);
    |calls| <= |r| && forall k :: 0 <= k < |calls| ==> r[k] == ToolMessage(calls[k], tools(k), turnNumber)
  }

  lemma {:induction false} ToolMessagesLength(calls: seq<Call>, tools: nat -> ToolRun, turnNumber: nat)
    ensures |ToolMessages(calls, tools, turnNumber)| >= |calls|
    ensures (forall k :: 0 <= k < |calls| ==> !tools(k).shows) ==>
              |ToolMessages(calls, tools, turnNumber)| == |calls| && Contiguous(calls, tools, turnNumber)
  {
    if calls != [] {
      ToolMessagesLength(calls[..|calls| - 1], tools, turnNumber);
    }
  }

  /** The results of a turn follow its calls without interruption exactly when no call but the last
      shows an image. */
  lemma {:induction false} ContiguousIff(calls: seq<Call>, tools: nat -> ToolRun, turnNumber: nat)
    ensures Contiguous(calls, tools, turnNumber) <==> forall k :: 0 <= k < |calls| - 1 ==> !tools(k).shows
  {
    if calls != [] {
      var n := |calls| - 1;
      ToolMessagesLength(calls[..n], tools, turnNumber);
      if exists k :: 0 <= k < n && tools(k).shows {
        var k := FirstShown(tools, n);
        ShownImageIsInTheWay(calls, tools, turnNumber, k);
      }
    }
  }

  lemma {:induction false} FirstShown(tools: nat -> ToolRun, n: nat) returns (k: nat)
    requires exists j :: 0 <= j < n && tools(j).shows
    ensures k < n && tools(k).shows && forall j :: 0 <= j < k ==> !tools(j).shows
  {
    if exists j :: 0 <= j < n - 1 && tools(j).shows {
      k := FirstShown(tools, n - 1);
    } else {
      k := n - 1;
    }
  }

  lemma {:induction false} ShownImageIsInTheWay(calls: seq<Call>, tools: nat -> ToolRun, turnNumber: nat, k: nat)
    requires k < |calls| && tools(k).shows && forall j :: 0 <= j < k ==> !tools(j).shows
    ensures |ToolMessages(calls, tools, turnNumber)| > k + 1
    ensures ToolMessages(calls, tools, turnNumber)[k + 1].role == User
    decreases |calls|
  {
    var n := |calls| - 1;
    if k < n {
      ShownImageIsInTheWay(calls[..n], tools, turnNumber, k);
    } else {
      ToolMessagesLength(calls[..n], tools, turnNumber);
    }
  }

  /** The calls a turn completes: those of the part of the stream that was looked at. */
  function TurnCalls(turn: Turn): seq<Call> {
    SeenAt(turn.stream, turn.abortAt);
    Calls(turn.stream[..Seen(turn.stream, turn.abortAt)])
  }

  function TurnContent(turn: Turn): JsString {
    SeenAt(turn.stream, turn.abortAt);
    FeedAll(turn.stream[..Seen(turn.stream, turn.abortAt)]).content
  }

  /** What a whole turn adds: the assistant message and a tool message for each of its calls. */
  function TurnMessages(turn: Turn, turnNumber: nat): seq<Message> {
    [Message(Assistant, TurnContent(turn), None, Ids(TurnCalls(turn)), None, 0, false)]
    + ToolMessages(TurnCalls(turn), turn.tools, turnNumber)
  }

  /** The turn runs to its end and the loop goes round again. */
  ghost predicate Continues(turn: Turn, mayRun: bool) {
    && turn.abortAt > |turn.stream|
    && Seen(turn.stream, turn.abortAt) == |turn.stream|
    && TurnCalls(turn) != []
    && (mayRun || turn.approves)
    && turn.abortBeforeTool >= |TurnCalls(turn)|
    && forall i :: 0 <= i < |TurnCalls(turn)| ==> !turn.tools(i).throws
  }

  lemma {:induction false} SeenAll(es: seq<StreamEvent>, abortAt: nat)
    ensures Seen(es, abortAt) == |es| <==> |es| <= abortAt && forall k :: 0 <= k < |es| ==> !es[k].Failure?
  {
    SeenAt(es, abortAt);
    if es != [] && abortAt != 0 && !es[0].Failure? {
      SeenAll(es[1..], abortAt - 1);
      assert forall k :: 1 <= k < |es| ==> es[k] == es[1..][k - 1];
    }
  }

  /** The loop goes on exactly after a turn whose stream came to its end without an abort or an error
      event and completed some call, whose calls may run, and whose tools all ran without an abort or
      an exception. */
  lemma ContinuesIff(turn: Turn, mayRun: bool)
    ensures Continues(turn, mayRun) <==>
            && |turn.stream| < turn.abortAt
            && !(exists k :: 0 <= k < |turn.stream| && turn.stream[k].Failure?)
            && FeedAll(turn.stream).completed != []
            && (mayRun || turn.approves)
            && !(turn.abortBeforeTool < |FeedAll(turn.stream).completed|)
            && !(exists i :: 0 <= i < |FeedAll(turn.stream).completed| && turn.tools(i).throws)
  {
    SeenAll(turn.stream, turn.abortAt);
    AssemblyIsPerId(turn.stream);
    hide FeedAll, Calls, Seen;
    assert turn.stream[..|turn.stream|] == turn.stream;
  }

  /** What a turn adds first: one assistant message, with the text of the content events that were
      looked at, and the ids of the completed calls. */
  lemma AssistantMessageIs(turn: Turn, turnNumber: nat)
    ensures var n := Seen(turn.stream, turn.abortAt);
            var r := TurnMessages(turn, turnNumber);
            && n <= |turn.stream| && r != []
            && r[0].role == Assistant && r[0].content == Texts(turn.stream[..n]) && r[0].toolCallId == None
            && r[0].archiveId == None && r[0].archiveTurn == 0 && !r[0].pruneApplied
            && |r[0].toolCallIds| == |FeedAll(turn.stream[..n]).completed|
            && (forall k :: 0 <= k < |r[0].toolCallIds| ==>
                  r[0].toolCallIds[k] == FeedAll(turn.stream[..n]).completed[k].id)
            && r[1..] == ToolMessages(FeedAll(turn.stream[..n]).completed, turn.tools, turnNumber)
  {
    SeenAt(turn.stream, turn.abortAt);
    var es := turn.stream[..Seen(turn.stream, turn.abortAt)];
    ContentIsJoined(es);
    AssemblyIsPerId(es);
    IdsAt(Calls(es));
    hide FeedAll, Calls, Ids, ToolMessages;
  }

  lemma {:induction false} IdsAt(calls: seq<Call>)
    ensures |Ids(calls)| == |calls| && forall k :: 0 <= k < |calls| ==> Ids(calls)[k] == calls[k].id
  {
    if calls != [] {
      IdsAt(calls[..|calls| - 1]);
    }
  }

  function Shape(ms: seq<Message>): (r: seq<Message>)
    ensures |r| == |ms| && forall k :: 0 <= k < |ms| ==> r[k] == Skeleton(ms[k])
  {
    seq(|ms|, k requires 0 <= k < |ms| => Skeleton(ms[k]))
  }

  lemma ShapeAppend(a: seq<Message>, b: seq<Message>)
    ensures Shape(a + b) == Shape(a) + Shape(b)
  {
  }

  /** The transcripts of a run, in order: the first is what the loop started from, and each next
      one is the one before with exactly the messages of its turn added, texts aside. */
  ghost predicate Chained(env: nat -> Turn, start: seq<Message>, dispatched: seq<seq<Message>>) {
    && (dispatched != [] ==> Shape(dispatched[0]) == Shape(start))
    && forall k :: 0 < k < |dispatched| ==>
         Shape(dispatched[k]) == Shape(dispatched[k - 1]) + Shape(TurnMessages(env(k - 1), k))
  }

  /** What the next transcript will look like. */
  ghost function NextShape(env: nat -> Turn, start: seq<Message>, dispatched: seq<seq<Message>>): seq<Message> {
    var n := |dispatched|;
    if n == 0 then Shape(start) else Shape(dispatched[n - 1]) + Shape(TurnMessages(env(n - 1), n))
  }

  lemma ChainedSnoc(env: nat -> Turn, start: seq<Message>, dispatched: seq<seq<Message>>, ms: seq<Message>)
    requires Chained(env, start, dispatched) && Shape(ms) == NextShape(env, start, dispatched)
    ensures Chained(env, start, dispatched + [ms])
  {
  }

  class Manager {
    var messages: seq<Message>
    ghost var dispatched: seq<seq<Message>>  // the transcript of every request sent to a provider

    constructor (history: seq<Message>, userMessage: Message)
      requires WellFormed(history) && userMessage.role == User
      ensures messages == history + [userMessage] && dispatched == [] && WellFormed(messages)
    {
      messages, dispatched := history + [userMessage], [];
      new;
      OwedSnoc(history, userMessage);
    }

    /** `applyContextPruning`: overwrites the text of messages in place. */
    method ApplyContextPruning(settings: Settings, archive: ArchiveLog.State,
                               stub: (Message, bool) -> JsString, currentTurn: nat)
      modifies this`messages
      ensures messages == Prune(settings, archive, stub, currentTurn, old(messages))
    {
      hide Hidden, Stale, Oversized;
      for i := 0 to |messages|
        invariant |messages| == |old(messages)|
        invariant forall k :: 0 <= k < i ==>
                    messages[k] == PruneOne(settings, archive, stub, currentTurn, old(messages)[k])
        invariant forall k :: i <= k < |messages| ==> messages[k] == old(messages)[k]
      {
        var m := messages[i];
        if m.role == Tool && m.archiveId.Some? && !m.pruneApplied {
          var oversized := Oversized(settings, m);
          if Hidden(archive, m.archiveId.value) || Stale(settings, m, currentTurn) || oversized {
            messages := messages[i := m.(content := stub(m, oversized), pruneApplied := true)];
          }
        }
      }
    }

    /** Executes the calls of a turn in order, until the signal is seen aborted or a tool throws. */
    method RunTools(calls: seq<Call>, tools: nat -> ToolRun, abortBeforeTool: nat, currentTurn: nat)
      returns (done: bool, crashed: bool)
      requires Owed(messages) == Some(Ids(calls))
      modifies this`messages
      ensures done ==> WellFormed(messages) && messages == old(messages) + ToolMessages(calls, tools, currentTurn)
      ensures old(messages) <= messages
      ensures done <==> abortBeforeTool >= |calls| && forall i :: 0 <= i < |calls| ==> !tools(i).throws
      ensures !(done && crashed)
    {
      hide Owed, Ids;
      var i := 0;
      assert calls[i..] == calls;
      while i < |calls|
        invariant 0 <= i <= |calls|
        invariant i <= abortBeforeTool && forall k :: 0 <= k < i ==> !tools(k).throws
        invariant Owed(messages) == Some(Ids(calls[i..]))
        invariant messages == old(messages) + ToolMessages(calls[..i], tools, currentTurn)
      {
        if i >= abortBeforeTool {
          return false, false;
        }
        var run := tools(i);
        if run.throws {
          return false, true;
        }
        IdsHead(calls[i..]);
        assert calls[..i + 1][..i] == calls[..i];
        var toolMsg := Message(Tool, run.content, Some(calls[i].id), [], run.archiveId, currentTurn, false);
        OwedSnoc(messages, toolMsg);
        messages := messages + [toolMsg];
        if run.shows {
          OwedSnoc(messages, Plain(User));
          messages := messages + [Plain(User)];
        }
        i := i + 1;
      }
      assert calls[i..] == [] && calls[..i] == calls;
      NoIds();
      return true, false;
    }

    /** The loop of `handleDirectly`. However streams, aborts, cancellations, exceptions and
        prunings fall, every transcript sent to a provider is well formed and is the one before
        with its turn added; and the loop stops exactly when a turn does not run to its end, the
        signal is aborted or 25 turns have been made. */
    method HandleDirectly(env: nat -> Turn, stub: (Message, bool) -> JsString, autoRunTools: bool) returns (end: End)
      requires WellFormed(messages) && dispatched == []
      modifies this
      ensures forall k :: 0 <= k < |dispatched| ==> WellFormed(dispatched[k])
      ensures Chained(env, old(messages), dispatched)
      ensures |dispatched| <= 25
      ensures forall k :: 0 <= k < |dispatched| ==>
                !env(k).abortedBefore && (k + 1 < |dispatched| ==> Continues(env(k), autoRunTools || k > 0))
      ensures |dispatched| < 25 ==>
                || env(|dispatched|).abortedBefore
                || (|dispatched| > 0 && !Continues(env(|dispatched| - 1), autoRunTools || |dispatched| > 1))
    {
      hide Owed, OwedAfter, Feed, FeedAll, Calls, Seen, Chained, NextShape, Shape, ToolMessages, Ids, Prune, Continues;
      var turnCount, aborted, asked := 0, false, false;
      ghost var start := messages;
      StartsChained(env, start);
      while turnCount < MAX_TURNS
        invariant turnCount <= MAX_TURNS && |dispatched| == turnCount
        invariant WellFormed(messages) && Shape(messages) == NextShape(env, start, dispatched)
        invariant asked || autoRunTools || turnCount == 0
        invariant asked ==> turnCount > 0
        invariant Chained(env, start, dispatched)
        invariant forall k :: 0 <= k < |dispatched| ==> WellFormed(dispatched[k])
        invariant forall k :: 0 <= k < |dispatched| ==>
          !env(k).abortedBefore && Continues(env(k), autoRunTools || k > 0)
      {
        var turn := env(turnCount);
        if turn.abortedBefore {
          return StoppedByUser;
        }
        turnCount := turnCount + 1;
        PruningKeepsOwed(turn.settings, turn.archive, stub, turnCount, messages);
        PruningKeepsMessageShape(turn.settings, turn.archive, stub, turnCount, messages);
        ApplyContextPruning(turn.settings, turn.archive, stub, turnCount);
        ChainedSnoc(env, start, dispatched, messages);
        dispatched := dispatched + [messages];

        var ran, e := RunTurn(turn, turnCount, autoRunTools || asked);
        if !ran {
          return e;
        }
        NextShapeSnoc(env, start, dispatched, messages);
        asked := true;
      }
      return OutOfTurns;
    }

    /** One turn after its dispatch: the provider's stream, the question to the user, the tools.
        A signal aborted during the turn is seen at the latest before the next dispatch. */
    method RunTurn(turn: Turn, turnNumber: nat, mayRun: bool) returns (ran: bool, end: End)
      requires WellFormed(messages)
      modifies this`messages
      ensures old(messages) <= messages
      ensures ran <==> Continues(turn, mayRun)
      ensures ran ==> WellFormed(messages) && messages == old(messages) + TurnMessages(turn, turnNumber)
    {
      hide Owed, OwedAfter, Feed, FeedAll, Calls, Seen, ToolMessages, Ids;
      SeenAt(turn.stream, turn.abortAt);
      AssemblyIsPerId(turn.stream[..Seen(turn.stream, turn.abortAt)]);
      var outcome := ProcessStream(turn.stream, turn.abortAt);
      if outcome.Thrown? {
        return false, Crashed;
      }
      var aborted := turn.abortAt <= |turn.stream|;
      var a := outcome.a;
      var assistantMsg := Message(Assistant, a.content, None, Ids(a.completed), None, 0, false);
      AssistantOwes(messages, assistantMsg);
      messages := messages + [assistantMsg];
      if |a.completed| == 0 {
        return false, Finished;
      }
      if !mayRun && !turn.approves {
        return false, Finished;
      }
      var done, crashed := RunTools(a.completed, turn.tools, if aborted then 0 else turn.abortBeforeTool, turnNumber);
      return done, if crashed then Crashed else StoppedByUser;
    }
  }

  lemma StartsChained(env: nat -> Turn, start: seq<Message>)
    ensures Chained(env, start, []) && NextShape(env, start, []) == Shape(start)
  {
  }

  lemma NextShapeSnoc(env: nat -> Turn, start: seq<Message>, dispatched: seq<seq<Message>>, ms: seq<Message>)
    requires dispatched != [] &&
             ms == dispatched[|dispatched| - 1] + TurnMessages(env(|dispatched| - 1), |dispatched|)
    ensures Shape(ms) == NextShape(env, start, dispatched)
  {
    hide TurnMessages;
    ShapeAppend(dispatched[|dispatched| - 1], TurnMessages(env(|dispatched| - 1), |dispatched|));
  }

  lemma PruningKeepsMessageShape(settings: Settings, archive: ArchiveLog.State, stub: (Message, bool) -> JsString,
                                 turn: nat, ms: seq<Message>)
    ensures Shape(Prune(settings, archive, stub, turn, ms)) == Shape(ms)
  {
    PruneKeepsShape(settings, archive, stub, turn, ms);
    hide Skeleton;
  }

  lemma NoIds()
    ensures Ids([]) == []
  {
  }

  lemma AssistantOwes(ms: seq<Message>, m: Message)
    requires WellFormed(ms) && m.role == Assistant
    ensures Owed(ms + [m]) == Some(m.toolCallIds)
  {
    OwedSnoc(ms, m);
  }

  lemma {:induction false} IdsHead(calls: seq<Call>)
    requires calls != []
    ensures Ids(calls) == [calls[0].id] + Ids(calls[1..])
  {
    if |calls| > 1 {
      var init := calls[..|calls| - 1];
      IdsHead(init);
      assert calls[1..][..|calls[1..]| - 1] == init[1..];
    } else {
      assert calls[..0] == [] && calls[1..] == [];
    }
  }
}
