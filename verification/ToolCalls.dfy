/** Assembling tool calls out of a provider's interleaved stream events. */
module ToolCalls {
  import opened Options
  import opened JsStrings

  type CallId = string

  datatype StreamEvent =
    | Content(text: JsString)
    | Start(id: CallId, name: string)
    | Delta(id: CallId, text: JsString)
    | Stop(id: CallId)
    | Failure(error: string)
    | Other

  /** A call being assembled, and a completed one; `input` is the raw text that is then parsed. */
  datatype Draft = Draft(name: string, input: JsString)
  datatype Call = Call(id: CallId, name: string, input: JsString)

  datatype Assembly = Assembly(
    content: JsString, pending: map<CallId, Draft>, completed: seq<Call>, hasToolCalls: bool)

  const NOTHING: Assembly := Assembly([], map[], [], false)

  /** The effect of one stream event. */
  function Feed(a: Assembly, e: StreamEvent): Assembly {
    match e
    case Content(text) => a.(content := a.content + text)
    case Start(id, name) => a.(pending := a.pending[id := Draft(name, [])], hasToolCalls := true)
    case Delta(id, text) =>
      if id in a.pending
        then a.(pending := a.pending[id := a.pending[id].(input := a.pending[id].input + text)]) else a
    case Stop(id) =>
      if id in a.pending
        then a.(completed := a.completed + [Call(id, a.pending[id].name, a.pending[id].input)],
                pending := a.pending - {id})
        else a
    case Failure(_) => a
    case Other => a
  }

  function FeedAll(es: seq<StreamEvent>): Assembly {
    if es == [] then NOTHING else Feed(FeedAll(es[..|es| - 1]), es[|es| - 1])
  }

  /** The text of the content events, joined. */
  function Texts(es: seq<StreamEvent>): JsString {
    if es == [] then [] else
      Texts(es[..|es| - 1]) + if es[|es| - 1].Content? then es[|es| - 1].text else []
  }

  /** The content is all that the content events carried, in order, and the flag says whether any call
      was started. */
  lemma {:induction false} ContentIsJoined(es: seq<StreamEvent>)
    ensures FeedAll(es).content == Texts(es)
    ensures FeedAll(es).hasToolCalls <==> exists k :: 0 <= k < |es| && es[k].Start?
  {
    if es != [] {
      var init, last := es[..|es| - 1], es[|es| - 1];
      ContentIsJoined(init);
      assert es == init + [last];
      if last.Start? {
        assert es[|es| - 1].Start?;
      }
    }
  }

  // -- Reference: each id read on its own ------------------------------------

  predicate Concerns(e: StreamEvent, id: CallId) {
    (e.Start? || e.Delta? || e.Stop?) && e.id == id
  }

  /** The events of one id, the rest left out. */
  function Project(es: seq<StreamEvent>, id: CallId): seq<StreamEvent> {
    if es == [] then [] else
      Project(es[..|es| - 1], id) + if Concerns(es[|es| - 1], id) then [es[|es| - 1]] else []
  }

  /** The draft that the events of one id leave open: the text since its last start. */
  function Open(own: seq<StreamEvent>): Option<Draft> {
    if own == [] then None else
      var last, before := own[|own| - 1], Open(own[..|own| - 1]);
      match last
      case Start(_, name) => Some(Draft(name, []))
      case Stop(_) => None
      case Delta(_, text) => if before.Some? then Some(before.value.(input := before.value.input + text)) else None
      case _ => before
  }

  /** The calls of a stream: one for each stop that closes an open draft, in the order of stops. */
  function Calls(es: seq<StreamEvent>): seq<Call> {
    if es == [] then [] else
      var init, last := es[..|es| - 1], es[|es| - 1];
      Calls(init) +
        if last.Stop? && Open(Project(init, last.id)).Some? then
          var d := Open(Project(init, last.id)).value;
          [Call(last.id, d.name, d.input)]
        else []
  }

  lemma ProjectSnoc(es: seq<StreamEvent>, e: StreamEvent, id: CallId)
    ensures Project(es + [e], id) == Project(es, id) + if Concerns(e, id) then [e] else []
  {
    assert (es + [e])[..|es|] == es;
  }

  /** For any interleaving, assembling the stream as it comes gives each id's own calls, in the
      order of their stops, with the text that id's own deltas carried since its start. */
  lemma {:induction false} AssemblyIsPerId(es: seq<StreamEvent>)
    ensures FeedAll(es).completed == Calls(es)
    ensures forall id :: id in FeedAll(es).pending <==> Open(Project(es, id)).Some?
    ensures forall id :: id in FeedAll(es).pending ==> Open(Project(es, id)) == Some(FeedAll(es).pending[id])
  {
    if es != [] {
      hide Project;
      var init, last := es[..|es| - 1], es[|es| - 1];
      assert es == init + [last];
      AssemblyIsPerId(init);
      forall id
        ensures id in FeedAll(es).pending <==> Open(Project(es, id)).Some?
        ensures id in FeedAll(es).pending ==> Open(Project(es, id)) == Some(FeedAll(es).pending[id])
      {
        ProjectSnoc(init, last, id);
        OpenSnoc(Project(init, id), last);
      }
    } else {
      assert forall id :: Project(es, id) == [];
    }
  }

  lemma OpenSnoc(own: seq<StreamEvent>, e: StreamEvent)
    ensures Open(own + [e]) ==
            match e
            case Start(_, name) => Some(Draft(name, []))
            case Stop(_) => None
            case Delta(_, text) =>
              if Open(own).Some? then Some(Open(own).value.(input := Open(own).value.input + text)) else None
            case _ => Open(own)
    ensures Open(own + []) == Open(own)
  {
    assert (own + [e])[..|own|] == own;
    assert own + [] == own;
  }

  function Join(deltas: seq<StreamEvent>): JsString {
    if deltas == [] then [] else
      Join(deltas[..|deltas| - 1]) + if deltas[|deltas| - 1].Delta? then deltas[|deltas| - 1].text else []
  }

  /** An id started once and fed some deltas has exactly their concatenation when it stops. */
  lemma {:induction false} BracketedInput(own: seq<StreamEvent>, id: CallId, name: string, deltas: seq<StreamEvent>)
    requires own == [Start(id, name)] + deltas
    requires forall k :: 0 <= k < |deltas| ==> deltas[k].Delta?
    ensures Open(own) == Some(Draft(name, Join(deltas)))
    decreases |deltas|
  {
    if deltas == [] {
      assert own[..|own| - 1] == [];
    } else {
      var init := deltas[..|deltas| - 1];
      assert own[..|own| - 1] == [Start(id, name)] + init;
      BracketedInput(own[..|own| - 1], id, name, init);
    }
  }

  function StopIds(es: seq<StreamEvent>): seq<CallId> {
    if es == [] then [] else
      StopIds(es[..|es| - 1]) + if es[|es| - 1].Stop? then [es[|es| - 1].id] else []
  }

  function Ids(calls: seq<Call>): seq<CallId> {
    if calls == [] then [] else Ids(calls[..|calls| - 1]) + [calls[|calls| - 1].id]
  }

  /** If every stop closes an open draft, the calls come out in exactly the order of the stops. */
  lemma {:induction false} CallsFollowStops(es: seq<StreamEvent>)
    requires forall k :: 0 <= k < |es| && es[k].Stop? ==> Open(Project(es[..k], es[k].id)).Some?
    ensures Ids(Calls(es)) == StopIds(es)
  {
    hide Open, Project;
    if es != [] {
      var init, last := es[..|es| - 1], es[|es| - 1];
      forall k | 0 <= k < |init| && init[k].Stop? ensures Open(Project(init[..k], init[k].id)).Some? {
        assert init[..k] == es[..k] && init[k] == es[k];
      }
      CallsFollowStops(init);
      var c := Calls(init);
      if last.Stop? {
        var d := Open(Project(init, last.id)).value;
        assert (c + [Call(last.id, d.name, d.input)])[..|c|] == c;
        assert Calls(es) == c + [Call(last.id, d.name, d.input)];
      } else {
        assert Calls(es) == c + [] == c && StopIds(es) == StopIds(init) + [] == StopIds(init);
      }
    }
  }

  /** The events of an id so far, if it is started once, then fed, then stopped once. */
  predicate Partial(own: seq<StreamEvent>) {
    own != [] ==>
      && own[0].Start?
      && (forall k :: 0 < k < |own| - 1 ==> own[k].Delta?)
      && (|own| > 1 ==> own[|own| - 1].Delta? || own[|own| - 1].Stop?)
  }

  predicate Stopped(own: seq<StreamEvent>) {
    own != [] && own[|own| - 1].Stop?
  }

  predicate AllDeltas(own: seq<StreamEvent>) {
    forall k :: 0 <= k < |own| ==> own[k].Delta?
  }

  /** Said without positions: a start, deltas, a stop. */
  lemma BracketIff(id: CallId, own: seq<StreamEvent>)
    requires forall k :: 0 <= k < |own| ==> Concerns(own[k], id)
    ensures Partial(own) && Stopped(own) <==>
            exists name, deltas :: AllDeltas(deltas) && own == [Start(id, name)] + deltas + [Stop(id)]
    ensures Partial(own) && own != [] && !Stopped(own) <==>
            exists name, deltas :: AllDeltas(deltas) && own == [Start(id, name)] + deltas
  {
    if Partial(own) && Stopped(own) {
      var deltas := own[1..|own| - 1];
      assert own == [Start(id, own[0].name)] + deltas + [Stop(id)];
      assert AllDeltas(deltas);
    }
    if Partial(own) && own != [] && !Stopped(own) {
      assert own == [Start(id, own[0].name)] + own[1..];
      assert AllDeltas(own[1..]);
    }
  }

  /** The call of such an id: its name, and all that its deltas carried. */
  function OwnCall(id: CallId, own: seq<StreamEvent>): Call
    requires Partial(own) && Stopped(own)
  {
    Call(id, own[0].name, Join(own[1..|own| - 1]))
  }

  lemma PartialPrefix(own: seq<StreamEvent>, e: StreamEvent)
    requires Partial(own + [e])
    ensures Partial(own) && !Stopped(own)
  {
    assert forall k :: 0 <= k < |own| ==> (own + [e])[k] == own[k];
  }

  lemma StopCompletes(id: CallId, own: seq<StreamEvent>)
    requires Partial(own + [Stop(id)])
    ensures own != [] && Open(own).Some?
    ensures Call(id, Open(own).value.name, Open(own).value.input) == OwnCall(id, own + [Stop(id)])
  {
    var all := own + [Stop(id)];
    assert own != [] ==> all[0] == own[0];
    var deltas := own[1..];
    assert own == [Start(own[0].id, own[0].name)] + deltas;
    assert forall k :: 0 <= k < |deltas| ==> deltas[k] == all[k + 1];
    BracketedInput(own, own[0].id, own[0].name, deltas);
    assert all[1..|all| - 1] == deltas;
  }

  ghost predicate AllPartial(es: seq<StreamEvent>) {
    forall id :: Partial(Project(es, id))
  }

  /** The calls of a stream are those of the ids that have stopped, one each, in the order of stops. */
  ghost predicate OneCallPerStop(calls: seq<Call>, es: seq<StreamEvent>)
    requires AllPartial(es)
  {
    var stops := StopIds(es);
    && |calls| == |stops|
    && (forall id :: id in stops <==> Stopped(Project(es, id)))
    && (forall k :: 0 <= k < |stops| ==>
          Stopped(Project(es, stops[k])) && calls[k] == OwnCall(stops[k], Project(es, stops[k])))
    && forall j, k :: 0 <= j < k < |stops| ==> stops[j] != stops[k]
  }

  lemma OneMoreEvent(init: seq<StreamEvent>, e: StreamEvent)
    requires AllPartial(init + [e])
    ensures AllPartial(init)
    ensures forall id :: Project(init + [e], id) == Project(init, id) + if Concerns(e, id) then [e] else []
    ensures forall id :: Concerns(e, id) ==> !Stopped(Project(init, id))
  {
    hide Partial, Stopped, Project;
    forall id
      ensures Project(init + [e], id) == Project(init, id) + if Concerns(e, id) then [e] else []
      ensures Partial(Project(init, id)) && (Concerns(e, id) ==> !Stopped(Project(init, id)))
    {
      ProjectSnoc(init, e, id);
      assert Partial(Project(init + [e], id));
      if Concerns(e, id) {
        PartialPrefix(Project(init, id), e);
      } else {
        assert Project(init, id) + [] == Project(init, id);
      }
    }
  }

  lemma OtherEventAddsNothing(init: seq<StreamEvent>, e: StreamEvent)
    requires AllPartial(init) && AllPartial(init + [e]) && !e.Stop?
    requires OneCallPerStop(Calls(init), init)
    ensures OneCallPerStop(Calls(init + [e]), init + [e])
  {
    var es := init + [e];
    assert es[..|es| - 1] == init && Calls(init) + [] == Calls(init) && StopIds(init) + [] == StopIds(init);
    assert Calls(es) == Calls(init) && StopIds(es) == StopIds(init);
    OneMoreEvent(init, e);
    hide Project, Partial, Calls, StopIds, OwnCall, AllPartial;
    forall id ensures Stopped(Project(es, id)) <==> Stopped(Project(init, id))
      ensures Stopped(Project(init, id)) ==> Project(es, id) == Project(init, id)
    {
      assert Project(init, id) + [] == Project(init, id);
    }
  }

  lemma StopAddsItsCall(init: seq<StreamEvent>, id: CallId)
    requires AllPartial(init) && AllPartial(init + [Stop(id)])
    requires OneCallPerStop(Calls(init), init)
    ensures OneCallPerStop(Calls(init + [Stop(id)]), init + [Stop(id)])
  {
    var es := init + [Stop(id)];
    assert es[..|es| - 1] == init;
    OneMoreEvent(init, Stop(id));
    assert Partial(Project(es, id));
    StopCompletes(id, Project(init, id));
    var call := OwnCall(id, Project(es, id));
    assert Calls(es) == Calls(init) + [call] && StopIds(es) == StopIds(init) + [id];
    forall g | g != id ensures Project(es, g) == Project(init, g) {
      assert Project(init, g) + [] == Project(init, g);
    }
    StoppedNow(Project(init, id), id);
    hide Project, Partial, Calls, StopIds, OwnCall, AllPartial, Open, Stopped;
    OneMoreStop(Calls(init), init, es, id, call);
  }

  /** One more stop puts its id behind the others, and leaves what is known of the others. */
  lemma OneMoreStop(calls: seq<Call>, init: seq<StreamEvent>, es: seq<StreamEvent>, id: CallId, call: Call)
    requires AllPartial(init) && AllPartial(es) && OneCallPerStop(calls, init)
    requires StopIds(es) == StopIds(init) + [id]
    requires !Stopped(Project(init, id)) && Stopped(Project(es, id)) && call == OwnCall(id, Project(es, id))
    requires forall g :: g != id ==> Project(es, g) == Project(init, g)
    ensures OneCallPerStop(calls + [call], es)
  {
    hide Project, Partial, StopIds, OwnCall, Stopped;
    var stops := StopIds(init);
    assert id !in stops;
    forall k | 0 <= k < |stops|
      ensures stops[k] != id && Stopped(Project(es, stops[k]))
      ensures calls[k] == OwnCall(stops[k], Project(es, stops[k]))
    {
      assert stops[k] in stops;
    }
  }

  lemma StoppedNow(own: seq<StreamEvent>, id: CallId)
    ensures Stopped(own + [Stop(id)])
  {
  }

  lemma {:induction false} CallsOfPartial(es: seq<StreamEvent>)
    requires AllPartial(es)
    ensures OneCallPerStop(Calls(es), es)
  {
    hide AllPartial, OneCallPerStop, Calls;
    if es == [] {
      NoCalls();
    } else {
      var init, last := es[..|es| - 1], es[|es| - 1];
      assert es == init + [last];
      OneMoreEvent(init, last);
      CallsOfPartial(init);
      if last.Stop? {
        StopAddsItsCall(init, last.id);
      } else {
        OtherEventAddsNothing(init, last);
      }
    }
  }

  lemma NoCalls()
    ensures AllPartial([]) && OneCallPerStop(Calls([]), [])
  {
  }

  /** A stream in which every id is started once, then fed, then stopped once, however the ids are
      interleaved: exactly one call for every stop comes out, in the order of the stops, each with its
      id's name and the concatenation of its id's deltas; nothing is left over. */
  lemma BracketedStream(es: seq<StreamEvent>)
    requires AllPartial(es) && forall id :: Project(es, id) == [] || Stopped(Project(es, id))
    ensures OneCallPerStop(FeedAll(es).completed, es)
    ensures FeedAll(es).pending == map[]
  {
    hide Partial, Project, Open, OwnCall, Calls;
    AssemblyIsPerId(es);
    CallsOfPartial(es);
    forall id ensures id !in FeedAll(es).pending {
      NothingOpen(Project(es, id));
    }
  }

  lemma NothingOpen(own: seq<StreamEvent>)
    requires own == [] || Stopped(own)
    ensures Open(own).None?
  {
  }

  // -- The loop --------------------------------------------------------------

  /** How the loop over a provider stream ends. */
  datatype Outcome = Assembled(a: Assembly) | Thrown(error: string)

  /** Where the loop stops looking: at the abort, or at the first error event. */
  function Seen(es: seq<StreamEvent>, abortAt: nat): nat
  {
    if es == [] || abortAt == 0 || es[0].Failure? then 0 else 1 + Seen(es[1..], abortAt - 1)
  }

  lemma {:induction false} SeenAt(es: seq<StreamEvent>, abortAt: nat)
    ensures var n := Seen(es, abortAt);
            && n <= |es| && n <= abortAt
            && (forall k :: 0 <= k < n ==> !es[k].Failure?)
            && (n < |es| && n < abortAt ==> es[n].Failure?)
  {
    if es != [] && abortAt != 0 && !es[0].Failure? {
      SeenAt(es[1..], abortAt - 1);
      assert forall k :: 1 <= k < |es| ==> es[k] == es[1..][k - 1];
    }
  }

  /** The event loop of `processManagerTurn`: an abort keeps what was assembled, an error event is
      thrown. `abortAt` is the event before which the signal is first seen aborted. */
  method ProcessStream(es: seq<StreamEvent>, abortAt: nat) returns (r: Outcome)
    ensures var n := Seen(es, abortAt);
            && n <= |es|
            && (if n < |es| && n < abortAt
                then es[n].Failure? && r == Thrown(es[n].error)
                else r == Assembled(FeedAll(es[..n])))
  {
    SeenAt(es, abortAt);
    var a := NOTHING;
    var i := 0;
    while i < |es|
      invariant 0 <= i <= Seen(es, abortAt) <= |es|
      invariant a == FeedAll(es[..i])
    {
      if i >= abortAt {
        break;
      }
      if es[i].Failure? {
        return Thrown(es[i].error);
      }
      assert es[..i + 1][..i] == es[..i];
      a := Feed(a, es[i]);
      i := i + 1;
    }
    return Assembled(a);
  }
}
