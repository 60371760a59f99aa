/** The conversation of a worker or critic, which goes on after errors. */
module AgentThread {
  import opened Options
  import opened JsStrings
  import opened Sequences
  import opened Pruning
  import opened ToolCalls
  import opened TurnLoop

  /** What the environment does in one turn: the provider's stream and the runs of the tools. */
  datatype ThreadTurn = ThreadTurn(stream: seq<StreamEvent>, tools: nat -> ToolRun)

  /** Results of a thread are not archived. */
  function Bare(tools: nat -> ToolRun): nat -> ToolRun {
    (i: nat) => tools(i).(archiveId := None)
  }

  ghost predicate Fails(es: seq<StreamEvent>) {
    exists k :: 0 <= k < |es| && es[k].Failure?
  }

  /** The loop over the stream, which has no abort test: the first error event is thrown. */
  method Assemble(es: seq<StreamEvent>) returns (r: Outcome)
    ensures if Fails(es) then r.Thrown? else r == Assembled(FeedAll(es))
  {
    var a := NOTHING;
    assert es[..0] == [];
    for i := 0 to |es|
      invariant a == FeedAll(es[..i])
      invariant !Fails(es[..i])
    {
      assert es[..i + 1][..i] == es[..i];
      if es[i].Failure? {
        return Thrown(es[i].error);
      }
      a := Feed(a, es[i]);
    }
    assert es[..|es|] == es;
    return Assembled(a);
  }

  /** How many tools run before one throws. */
  ghost function Runs(calls: seq<Call>, tools: nat -> ToolRun): (n: nat)
    ensures n <= |calls|
    ensures forall i :: 0 <= i < n ==> !tools(i).throws
    ensures n < |calls| ==> tools(n).throws
  {
    if calls == [] then 0 else
      var n := Runs(calls[..|calls| - 1], tools);
      if n == |calls| - 1 && !tools(n).throws then n + 1 else n
  }

  ghost predicate ToolThrows(turn: ThreadTurn) {
    !Fails(turn.stream) && Runs(Calls(turn.stream), Bare(turn.tools)) < |Calls(turn.stream)|
  }

  /** What a turn adds: nothing if the stream fails, else the assistant message and the messages of
      the tools that ran. */
  ghost function Added(turn: ThreadTurn): seq<Message> {
    if Fails(turn.stream) then [] else
      var calls := Calls(turn.stream);
      [Message(Assistant, FeedAll(turn.stream).content, None, Ids(calls), None, 0, false)]
      + ToolMessages(calls[..Runs(calls, Bare(turn.tools))], Bare(turn.tools), 0)
  }

  lemma {:induction false} NoneStays(ms: seq<Message>, more: seq<Message>)
    requires Owed(ms).None?
    ensures Owed(ms + more).None?
    decreases |more|
  {
    if more == [] {
      assert ms + more == ms;
    } else {
      NoneStays(ms, more[..|more| - 1]);
      OwedSnoc(ms + more[..|more| - 1], more[|more| - 1]);
      assert ms + more == ms + more[..|more| - 1] + [more[|more| - 1]];
    }
  }

  lemma OneMoreTool(calls: seq<Call>, tools: nat -> ToolRun, n: nat)
    requires n < |calls|
    ensures ToolMessages(calls[..n + 1], tools, 0) ==
            ToolMessages(calls[..n], tools, 0) +
            ([TurnLoop.ToolMessage(calls[n], tools(n), 0)] + if tools(n).shows then [Plain(User)] else [])
  {
    assert calls[..n + 1][..n] == calls[..n];
  }

  lemma OwedAfterOne(ms: seq<Message>, calls: seq<Call>, n: nat, run: ToolRun)
    requires n < |calls| && Owed(ms) == Some(Ids(calls[n..]))
    ensures Owed(ms + ([TurnLoop.ToolMessage(calls[n], run, 0)] + if run.shows then [Plain(User)] else []))
            == Some(Ids(calls[n + 1..]))
  {
    var m := TurnLoop.ToolMessage(calls[n], run, 0);
    IdsHead(calls[n..]);
    assert calls[n..][1..] == calls[n + 1..];
    OwedSnoc(ms, m);
    OwedSnoc(ms + [m], Plain(User));
    hide Owed, Ids;
    assert ms + ([m] + [Plain(User)]) == ms + [m] + [Plain(User)] && ms + ([m] + []) == ms + [m];
  }

  lemma {:induction false} OwedAfterTools(ms: seq<Message>, calls: seq<Call>, tools: nat -> ToolRun, n: nat)
    requires n <= |calls| && Owed(ms) == Some(Ids(calls))
    ensures Owed(ms + ToolMessages(calls[..n], tools, 0)) == Some(Ids(calls[n..]))
  {
    if n == 0 {
      assert ms + ToolMessages(calls[..0], tools, 0) == ms && calls[0..] == calls;
    } else {
      OwedAfterTools(ms, calls, tools, n - 1);
      OneMoreTool(calls, tools, n - 1);
      var before := ToolMessages(calls[..n - 1], tools, 0);
      OwedAfterOne(ms + before, calls, n - 1, tools(n - 1));
      var more :=
        [TurnLoop.ToolMessage(calls[n - 1], tools(n - 1), 0)] + if tools(n - 1).shows then [Plain(User)] else [];
      hide *;
      Regroup(ms, before, more);
    }
  }

  /** A turn keeps a transcript well formed unless one of its tools throws, and never repairs one
      that is not. */
  lemma TurnKeepsWellFormedIff(ms: seq<Message>, turn: ThreadTurn)
    ensures WellFormed(ms + Added(turn)) <==> WellFormed(ms) && !ToolThrows(turn)
  {
    hide FeedAll, Calls, Ids, ToolMessages, Fails, Added;
    if Fails(turn.stream) {
      NothingAdded(ms, turn);
    } else {
      var calls := Calls(turn.stream);
      var n := Runs(calls, Bare(turn.tools));
      var assistant := Message(Assistant, FeedAll(turn.stream).content, None, Ids(calls), None, 0, false);
      var results := ToolMessages(calls[..n], Bare(turn.tools), 0);
      AddedInFull(turn, calls, FeedAll(turn.stream).content);
      Regroup(ms, [assistant], results);
      OwedSnoc(ms, assistant);
      hide Owed;
      if WellFormed(ms) {
        OwedAfterTools(ms + [assistant], calls, Bare(turn.tools), n);
        if n < |calls| {
          IdsHead(calls[n..]);
        } else {
          NoIds();
        }
      } else {
        NoneStays(ms + [assistant], results);
      }
    }
  }

  lemma NothingAdded(ms: seq<Message>, turn: ThreadTurn)
    requires Fails(turn.stream)
    ensures ms + Added(turn) == ms
  {
  }

  lemma AddedInFull(turn: ThreadTurn, calls: seq<Call>, content: JsString)
    requires !Fails(turn.stream) && calls == Calls(turn.stream) && content == FeedAll(turn.stream).content
    ensures Added(turn) == [Message(Assistant, content, None, Ids(calls), None, 0, false)]
                           + ToolMessages(calls[..Runs(calls, Bare(turn.tools))], Bare(turn.tools), 0)
  {
  }

  lemma NoToolMessages(tools: nat -> ToolRun)
    ensures ToolMessages([], tools, 0) == []
  {
  }

  // -- A whole conversation --------------------------------------------------

  /** The transcript, every transcript sent to a provider so far, and the turns that followed. */
  datatype Conversation = Conversation(
    messages: seq<Message>, dispatched: seq<seq<Message>>, turns: seq<ThreadTurn>)

  ghost predicate Crashes(turn: ThreadTurn) {
    Fails(turn.stream) || ToolThrows(turn)
  }

  ghost predicate GoesOn(turn: ThreadTurn) {
    !Crashes(turn) && Calls(turn.stream) != []
  }

  ghost function OneTurn(c: Conversation, turn: ThreadTurn): Conversation {
    Conversation(c.messages + Added(turn), c.dispatched + [c.messages], c.turns + [turn])
  }

  /** A run, from its `k`-th turn on. */
  ghost function RunFrom(c: Conversation, env: nat -> ThreadTurn, k: nat, maxTurns: nat): Conversation
    decreases maxTurns - k
  {
    if k >= maxTurns then c
    else if GoesOn(env(k)) then RunFrom(OneTurn(c, env(k)), env, k + 1, maxTurns)
    else OneTurn(c, env(k))
  }

  /** What the first `n` turns of a run add. */
  ghost function AllAdded(env: nat -> ThreadTurn, k: nat, n: nat): seq<Message>
    decreases n
  {
    if n == 0 then [] else AllAdded(env, k, n - 1) + Added(env(k + n - 1))
  }

  /** `n` turns were made from the `k`-th on: every one but the last went on, and the last did not
      unless the turns were used up. */
  ghost predicate Made(env: nat -> ThreadTurn, k: nat, maxTurns: nat, n: nat) {
    && k + n <= maxTurns
    && (forall j :: k <= j < k + n - 1 ==> GoesOn(env(j)))
    && (k + n < maxTurns ==> n > 0 && !GoesOn(env(k + n - 1)))
  }

  lemma FirstAdded(env: nat -> ThreadTurn, k: nat, n: nat)
    ensures AllAdded(env, k, n + 1) == Added(env(k)) + AllAdded(env, k + 1, n)
  {
    hide Added;
    if n > 0 {
      FirstAdded(env, k, n - 1);
      Regroup(Added(env(k)), AllAdded(env, k + 1, n - 1), Added(env(k + n)));
    } else {
      assert AllAdded(env, k, 0) + Added(env(k)) == Added(env(k));
    }
  }

  lemma AddedFirst(ms: seq<Message>, env: nat -> ThreadTurn, k: nat, n: nat)
    ensures ms + Added(env(k)) + AllAdded(env, k + 1, n) == ms + AllAdded(env, k, n + 1)
  {
    FirstAdded(env, k, n);
    Regroup(ms, Added(env(k)), AllAdded(env, k + 1, n));
  }

  /** `r` is `c` after these `n` turns: the transcript with what each added, and before each turn the
      transcript so far sent to a provider. */
  ghost predicate Ran(r: Conversation, c: Conversation, env: nat -> ThreadTurn, k: nat, n: nat) {
    && r.messages == c.messages + AllAdded(env, k, n)
    && |r.turns| == |c.turns| + n && c.turns <= r.turns
    && |r.dispatched| == |c.dispatched| + n && c.dispatched <= r.dispatched
    && (forall j :: k <= j < k + n ==> r.turns[|c.turns| + j - k] == env(j))
    && (forall i :: 0 <= i < n ==> r.dispatched[|c.dispatched| + i] == c.messages + AllAdded(env, k, i))
  }

  lemma NothingRan(c: Conversation, env: nat -> ThreadTurn, k: nat)
    ensures Ran(c, c, env, k, 0)
  {
    assert c.messages + [] == c.messages;
  }

  lemma RanOneMore(r: Conversation, c: Conversation, env: nat -> ThreadTurn, k: nat, n: nat)
    requires Ran(r, OneTurn(c, env(k)), env, k + 1, n)
    ensures Ran(r, c, env, k, n + 1)
  {
    hide Added, AllAdded;
    var d := OneTurn(c, env(k));
    AddedFirst(c.messages, env, k, n);
    assert r.turns[|c.turns|] == d.turns[|c.turns|] == env(k);
    forall i | 0 <= i < n + 1 ensures r.dispatched[|c.dispatched| + i] == c.messages + AllAdded(env, k, i) {
      if i > 0 {
        AddedFirst(c.messages, env, k, i - 1);
        assert r.dispatched[|d.dispatched| + (i - 1)] == d.messages + AllAdded(env, k + 1, i - 1);
      } else {
        assert r.dispatched[|c.dispatched|] == d.dispatched[|c.dispatched|];
        assert c.messages + AllAdded(env, k, 0) == c.messages by { NothingRan(c, env, k); }
      }
    }
  }

  /** What a run is: turns of the environment, in order, made until one does not go on or they are used up. */
  lemma {:induction false} RunIs(c: Conversation, env: nat -> ThreadTurn, k: nat, maxTurns: nat)
    returns (n: nat)
    requires k <= maxTurns
    ensures Made(env, k, maxTurns, n) && Ran(RunFrom(c, env, k, maxTurns), c, env, k, n)
    decreases maxTurns - k
  {
    hide GoesOn, Ran, OneTurn;
    if k >= maxTurns {
      n := 0;
      NothingRan(c, env, k);
    } else {
      var d := OneTurn(c, env(k));
      n := 1;
      if GoesOn(env(k)) {
        var m := RunIs(d, env, k + 1, maxTurns);
        n := m + 1;
        RanOneMore(RunFrom(d, env, k + 1, maxTurns), c, env, k, m);
      } else {
        NothingRan(d, env, k + 1);
        RanOneMore(d, c, env, k, 0);
      }
    }
  }

  /** A turn crashes exactly if its stream has an error event or some tool of a completed call throws;
      it goes on exactly if it does not crash and some call was completed. */
  lemma CrashesIff(turn: ThreadTurn)
    ensures Crashes(turn) <==>
            (exists k :: 0 <= k < |turn.stream| && turn.stream[k].Failure?) ||
            exists i :: 0 <= i < |FeedAll(turn.stream).completed| && turn.tools(i).throws
    ensures GoesOn(turn) <==> !Crashes(turn) && FeedAll(turn.stream).completed != []
  {
    AssemblyIsPerId(turn.stream);
    hide FeedAll, Calls;
    var calls, tools := Calls(turn.stream), Bare(turn.tools);
    assert forall i: nat :: tools(i).throws == turn.tools(i).throws;
  }

  /** What a turn adds, if its stream has no error event: one assistant message, and the messages of the
      tools before the first that throws, none of them archived; otherwise nothing. */
  lemma AddedIs(turn: ThreadTurn)
    ensures (exists k :: 0 <= k < |turn.stream| && turn.stream[k].Failure?) ==> Added(turn) == []
    ensures (forall k :: 0 <= k < |turn.stream| ==> !turn.stream[k].Failure?) ==>
              var calls, r := FeedAll(turn.stream).completed, Added(turn);
              exists n :: && 0 <= n <= |calls|
                && (forall i :: 0 <= i < n ==> !turn.tools(i).throws) && (n < |calls| ==> turn.tools(n).throws)
                && r != [] && r[0].role == Assistant && r[0].content == Texts(turn.stream)
                && r[0].toolCallIds == Ids(calls)
                && r[1..] == ToolMessages(calls[..n], (i: nat) => turn.tools(i).(archiveId := None), 0)
  {
    AssemblyIsPerId(turn.stream);
    ContentIsJoined(turn.stream);
    hide FeedAll, Calls, ToolMessages, Ids;
    if !Fails(turn.stream) {
      var calls, tools := Calls(turn.stream), Bare(turn.tools);
      var n := Runs(calls, tools);
      assert forall i: nat :: tools(i).throws == turn.tools(i).throws;
      assert Added(turn)[1..] == ToolMessages(calls[..n], tools, 0);
      SameTools(calls[..n], tools, (i: nat) => turn.tools(i).(archiveId := None));
    }
  }

  lemma {:induction false} SameTools(calls: seq<Call>, a: nat -> ToolRun, b: nat -> ToolRun)
    requires forall i: nat :: a(i) == b(i)
    ensures ToolMessages(calls, a, 0) == ToolMessages(calls, b, 0)
  {
    if calls != [] {
      SameTools(calls[..|calls| - 1], a, b);
    }
  }

  /** A user's message and what the environment does in the run that follows. */
  datatype Said = Said(message: Message, env: nat -> ThreadTurn, maxTurns: nat)

  ghost function Answered(c: Conversation, said: Said): Conversation {
    RunFrom(c.(messages := c.messages + [said.message]), said.env, 0, said.maxTurns)
  }

  /** An answer begins with the user's message, which the first transcript sent ends with, and is a run. */
  lemma AnswerIs(c: Conversation, said: Said) returns (n: nat)
    ensures Made(said.env, 0, said.maxTurns, n)
    ensures Ran(Answered(c, said), c.(messages := c.messages + [said.message]), said.env, 0, n)
    ensures n > 0 ==> Answered(c, said).dispatched[|c.dispatched|] == c.messages + [said.message]
  {
    n := RunIs(c.(messages := c.messages + [said.message]), said.env, 0, said.maxTurns);
    hide RunFrom, Made;
    assert c.messages + [said.message] + AllAdded(said.env, 0, 0) == c.messages + [said.message];
  }

  ghost function Talk(all: seq<Said>): Conversation {
    if all == [] then Conversation([], [], []) else Answered(Talk(all[..|all| - 1]), all[|all| - 1])
  }

  /** No tool throws in the first `n` turns. */
  ghost predicate Smooth(turns: seq<ThreadTurn>, n: nat) {
    forall j :: 0 <= j < n && j < |turns| ==> !ToolThrows(turns[j])
  }

  ghost predicate Sound(c: Conversation) {
    && |c.dispatched| == |c.turns|
    && (WellFormed(c.messages) <==> Smooth(c.turns, |c.turns|))
    && forall k :: 0 <= k < |c.dispatched| ==> (WellFormed(c.dispatched[k]) <==> Smooth(c.turns, k))
  }

  lemma TurnKeepsSound(c: Conversation, turn: ThreadTurn)
    requires Sound(c)
    ensures Sound(OneTurn(c, turn))
  {
    hide WellFormed, Smooth, Added;
    TurnKeepsWellFormedIff(c.messages, turn);
    SmoothAndOne(c.turns, turn);
    var d := OneTurn(c, turn);
    forall k | 0 <= k < |d.dispatched| ensures WellFormed(d.dispatched[k]) <==> Smooth(d.turns, k) {
      SmoothBefore(c.turns, turn, k);
    }
  }

  lemma SmoothAndOne(turns: seq<ThreadTurn>, turn: ThreadTurn)
    ensures Smooth(turns + [turn], |turns| + 1) <==> Smooth(turns, |turns|) && !ToolThrows(turn)
  {
    hide ToolThrows;
    var more := turns + [turn];
    assert more[|turns|] == turn;
    assert forall j :: 0 <= j < |turns| ==> more[j] == turns[j];
    if Smooth(more, |more|) {
      assert forall j :: 0 <= j < |turns| ==> !ToolThrows(more[j]);
    }
  }

  lemma SmoothBefore(turns: seq<ThreadTurn>, turn: ThreadTurn, k: nat)
    requires k <= |turns|
    ensures Smooth(turns + [turn], k) <==> Smooth(turns, k)
  {
    hide ToolThrows;
    var more := turns + [turn];
    assert forall j :: 0 <= j < |turns| ==> more[j] == turns[j];
    if Smooth(more, k) {
      assert forall j :: 0 <= j < k ==> !ToolThrows(more[j]);
    }
  }

  lemma MessageKeepsSound(c: Conversation, message: Message)
    requires Sound(c) && message.role == User
    ensures Sound(c.(messages := c.messages + [message]))
  {
    OwedSnoc(c.messages, message);
  }

  lemma {:induction false} RunKeepsSound(c: Conversation, env: nat -> ThreadTurn, k: nat, maxTurns: nat)
    requires Sound(c)
    ensures Sound(RunFrom(c, env, k, maxTurns))
    decreases maxTurns - k
  {
    hide Sound, OneTurn, GoesOn;
    if k < maxTurns {
      TurnKeepsSound(c, env(k));
      if GoesOn(env(k)) {
        RunKeepsSound(OneTurn(c, env(k)), env, k + 1, maxTurns);
      }
    }
  }

  /** Over a whole conversation, a transcript sent to a provider is well formed if and only if no
      tool has thrown in any turn before it, however many messages ago. */
  lemma {:induction false} WellFormedUntilAToolThrows(all: seq<Said>)
    requires forall k :: 0 <= k < |all| ==> all[k].message.role == User
    ensures var c := Talk(all);
            && |c.dispatched| == |c.turns|
            && forall k :: 0 <= k < |c.dispatched| ==>
                 (WellFormed(c.dispatched[k]) <==> forall j :: 0 <= j < k ==> !ToolThrows(c.turns[j]))
  {
    TalkIsSound(all);
    var c := Talk(all);
    forall k | 0 <= k < |c.dispatched|
      ensures WellFormed(c.dispatched[k]) <==> forall j :: 0 <= j < k ==> !ToolThrows(c.turns[j])
    {
      hide WellFormed, ToolThrows, Talk;
      assert Smooth(c.turns, k) <==> forall j :: 0 <= j < k ==> !ToolThrows(c.turns[j]);
    }
  }

  lemma {:induction false} TalkIsSound(all: seq<Said>)
    requires forall k :: 0 <= k < |all| ==> all[k].message.role == User
    ensures Sound(Talk(all))
  {
    if all != [] {
      var before, last := Talk(all[..|all| - 1]), all[|all| - 1];
      TalkIsSound(all[..|all| - 1]);
      hide Sound;
      MessageKeepsSound(before, last.message);
      RunKeepsSound(before.(messages := before.messages + [last.message]), last.env, 0, last.maxTurns);
    }
  }

  class AgentThread {
    var messages: seq<Message>
    ghost var dispatched: seq<seq<Message>>
    ghost var turns: seq<ThreadTurn>

    ghost function Now(): Conversation
      reads this
    {
      Conversation(messages, dispatched, turns)
    }

    ghost predicate Valid()
      reads this
    {
      Sound(Now())
    }

    constructor ()
      ensures Valid() && Now() == Talk([])
    {
      messages, dispatched, turns := [], [], [];
    }

    /** `processAgentThreadTurn` */
    method ProcessTurn(turn: ThreadTurn) returns (goOn: bool, crashed: bool)
      requires Valid()
      modifies this
      ensures Valid() && Now() == OneTurn(old(Now()), turn)
      ensures crashed <==> Crashes(turn)
      ensures goOn <==> GoesOn(turn)
    {
      TurnKeepsSound(Now(), turn);
      AssemblyIsPerId(turn.stream);
      hide Owed, FeedAll, Calls, Ids, Fails, WellFormed, ToolMessages, Added, Sound;
      dispatched := dispatched + [messages];
      turns := turns + [turn];
      var outcome := Assemble(turn.stream);
      if outcome.Thrown? {
        NothingAdded(messages, turn);
        return false, true;
      }
      var calls := outcome.a.completed;
      ghost var start := messages;
      var assistant := Message(Assistant, outcome.a.content, None, Ids(calls), None, 0, false);
      messages := messages + [assistant];
      var done := ExecuteAll(calls, Bare(turn.tools));
      AddedInFull(turn, calls, outcome.a.content);
      Regroup(start, [assistant], ToolMessages(calls[..Runs(calls, Bare(turn.tools))], Bare(turn.tools), 0));
      return done && |calls| > 0, !done;
    }

    /** The loop over the calls of a turn. */
    method ExecuteAll(calls: seq<Call>, tools: nat -> ToolRun) returns (done: bool)
      modifies this`messages
      ensures messages == old(messages) + ToolMessages(calls[..Runs(calls, tools)], tools, 0)
      ensures done <==> Runs(calls, tools) == |calls|
    {
      hide ToolMessages;
      ghost var n := Runs(calls, tools);
      NoToolMessages(tools);
      assert calls[..0] == [];
      for i := 0 to |calls|
        invariant i <= n
        invariant messages == old(messages) + ToolMessages(calls[..i], tools, 0)
      {
        var run := tools(i);
        if run.throws {
          return false;
        }
        OneMoreTool(calls, tools, i);
        messages := messages + [Message(Tool, run.content, Some(calls[i].id), [], run.archiveId, 0, false)];
        if run.shows {
          messages := messages + [Plain(User)];
        }
      }
      return true;
    }

    /** `runAgentThread`: makes exactly the turns of the run, and crashes exactly if its last one does. */
    method RunThread(env: nat -> ThreadTurn, maxTurns: nat) returns (crashed: bool)
      requires Valid()
      modifies this
      ensures Valid() && Now() == RunFrom(old(Now()), env, 0, maxTurns)
      ensures crashed <==> |turns| > |old(turns)| && Crashes(turns[|turns| - 1])
    {
      hide Sound, GoesOn, Crashes, OneTurn;
      var turnCount := 0;
      crashed := false;
      while turnCount < maxTurns
        invariant turnCount <= maxTurns && Valid() && !crashed
        invariant RunFrom(Now(), env, turnCount, maxTurns) == RunFrom(old(Now()), env, 0, maxTurns)
        invariant |turns| == |old(turns)| + turnCount
        invariant turnCount > 0 ==> !Crashes(turns[|turns| - 1])
      {
        OneTurnTurns(Now(), env(turnCount));
        var goOn;
        goOn, crashed := ProcessTurn(env(turnCount));
        if !goOn {
          return;
        }
        NoCrashThenOn(env(turnCount));
        turnCount := turnCount + 1;
      }
    }

    /** `sendMessageToAgent` */
    method SendMessage(said: Said) returns (crashed: bool)
      requires Valid() && said.message.role == User
      modifies this
      ensures Valid() && Now() == Answered(old(Now()), said)
      ensures crashed <==> |turns| > |old(turns)| && Crashes(turns[|turns| - 1])
    {
      MessageKeepsSound(Now(), said.message);
      hide Sound;
      messages := messages + [said.message];
      crashed := RunThread(said.env, said.maxTurns);
    }
  }

  lemma OneTurnTurns(c: Conversation, turn: ThreadTurn)
    ensures OneTurn(c, turn).turns == c.turns + [turn]
  {
  }

  lemma NoCrashThenOn(turn: ThreadTurn)
    ensures GoesOn(turn) ==> !Crashes(turn)
  {
  }
}
