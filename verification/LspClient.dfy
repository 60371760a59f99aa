/** The LSP client's message pump: framing in and out, and the table of pending requests. */
module LspClient {
  import opened Options
  import opened JsStrings
  import opened LspFraming

  /** What `handleData` sees in one body after `JSON.parse`. `Malformed` covers every body whose
      handling throws before it has an effect; `diagnostics` is present for a well-formed
      `textDocument/publishDiagnostics` and holds the path and its payload. */
  datatype Parsed =
    | Malformed
    | Message(id: Option<int>, diagnostics: Option<(JsString, JsString)>)

  /** How a registered request was settled; each one is a call of its resolver. */
  datatype Settlement =
    | Response(id: int, body: JsString)
    | Timeout(id: int)

  datatype Tables = Tables(
    pending: set<int>, settled: seq<Settlement>, diagnostics: map<JsString, JsString>)

  function HandleBody(parse: JsString -> Parsed, t: Tables, body: JsString): Tables {
    match parse(body)
    case Malformed => t
    case Message(id, diagnostics) =>
      var u := if id.Some? && id.value in t.pending
        then t.(pending := t.pending - {id.value}, settled := t.settled + [Response(id.value, body)])
        else t;
      if diagnostics.Some?
        then u.(diagnostics := u.diagnostics[diagnostics.value.0 := diagnostics.value.1])
        else u
  }

  function HandleAll(parse: JsString -> Parsed, t: Tables, bodies: seq<JsString>): Tables {
    if bodies == [] then t else
      HandleBody(parse, HandleAll(parse, t, bodies[..|bodies| - 1]), bodies[|bodies| - 1])
  }

  ghost predicate SettledOnce(settled: seq<Settlement>, pending: set<int>) {
    && (forall k :: 0 <= k < |settled| ==> settled[k].id !in pending)
    && (forall j, k :: 0 <= j < k < |settled| ==> settled[j].id != settled[k].id)
  }

  ghost function Ids(settled: seq<Settlement>): set<int> {
    set k | 0 <= k < |settled| :: settled[k].id
  }

  /** Handling any bodies keeps every registered request in exactly one of the two places. */
  lemma {:induction false} HandleAllSettlesOnce(parse: JsString -> Parsed, t: Tables, bodies: seq<JsString>)
    requires SettledOnce(t.settled, t.pending)
    ensures var u := HandleAll(parse, t, bodies);
            && SettledOnce(u.settled, u.pending)
            && t.settled <= u.settled
            && u.pending + Ids(u.settled) == t.pending + Ids(t.settled)
  {
    if bodies != [] {
      var before := HandleAll(parse, t, bodies[..|bodies| - 1]);
      HandleAllSettlesOnce(parse, t, bodies[..|bodies| - 1]);
      var u := HandleAll(parse, t, bodies);
      if u.settled != before.settled {
        IdsSnoc(before.settled, u.settled[|before.settled|]);
      }
    }
  }

  lemma IdsSnoc(settled: seq<Settlement>, s: Settlement)
    ensures Ids(settled + [s]) == Ids(settled) + {s.id}
  {
    var t := settled + [s];
    assert forall k :: 0 <= k < |settled| ==> t[k] == settled[k];
    assert t[|settled|] == s;
  }

  predicate Answers(parse: JsString -> Parsed, body: JsString, id: int) {
    parse(body).Message? && parse(body).id == Some(id)
  }

  /** A waiting request stays in the table exactly until a body answers it. */
  lemma {:induction false} WaitsUntilAnswered(parse: JsString -> Parsed, t: Tables, bodies: seq<JsString>, id: int)
    requires id in t.pending
    ensures id in HandleAll(parse, t, bodies).pending
            <==> forall k :: 0 <= k < |bodies| ==> !Answers(parse, bodies[k], id)
  {
    if bodies != [] {
      WaitsUntilAnswered(parse, t, bodies[..|bodies| - 1], id);
    }
  }

  /** It is the first answer in the stream that settles it; later ones change nothing. */
  lemma {:induction false} FirstAnswerSettles(parse: JsString -> Parsed, t: Tables, bodies: seq<JsString>,
                                             id: int, k: nat)
    requires id in t.pending && k < |bodies| && Answers(parse, bodies[k], id)
    requires forall j :: 0 <= j < k ==> !Answers(parse, bodies[j], id)
    ensures Response(id, bodies[k]) in HandleAll(parse, t, bodies).settled
    decreases |bodies|
  {
    var init := bodies[..|bodies| - 1];
    if k < |init| {
      FirstAnswerSettles(parse, t, init, id, k);
    } else {
      WaitsUntilAnswered(parse, t, init, id);
    }
  }

  /** Of each path the diagnostics are those of the last body that brought some, or as they were. */
  lemma {:induction false} LastDiagnosticsStay(parse: JsString -> Parsed, t: Tables, bodies: seq<JsString>,
                                               path: JsString)
    ensures var u := HandleAll(parse, t, bodies).diagnostics;
            && (Brings(parse, bodies, path).Some? ==> path in u && u[path] == Brings(parse, bodies, path).value)
            && (Brings(parse, bodies, path).None? ==>
                  (path in u <==> path in t.diagnostics) && (path in u ==> u[path] == t.diagnostics[path]))
  {
    if bodies != [] {
      LastDiagnosticsStay(parse, t, bodies[..|bodies| - 1], path);
    }
  }

  /** What the last body with diagnostics of a path brings. */
  function Brings(parse: JsString -> Parsed, bodies: seq<JsString>, path: JsString): Option<JsString> {
    if bodies == [] then None else
      var p := parse(bodies[|bodies| - 1]);
      if p.Message? && p.diagnostics.Some? && p.diagnostics.value.0 == path then Some(p.diagnostics.value.1)
      else Brings(parse, bodies[..|bodies| - 1], path)
  }

  /** Every settlement that bodies make is the answer one of them gives to a request that was waiting. */
  lemma {:induction false} OnlyAnswersSettle(parse: JsString -> Parsed, t: Tables, bodies: seq<JsString>, k: nat)
    requires |t.settled| <= k < |HandleAll(parse, t, bodies).settled|
    ensures var s := HandleAll(parse, t, bodies).settled[k];
            s.Response? && s.id in t.pending && s.body in bodies && Answers(parse, s.body, s.id)
  {
    var init := bodies[..|bodies| - 1];
    PendingShrinks(parse, t, init);
    if k < |HandleAll(parse, t, init).settled| {
      OnlyAnswersSettle(parse, t, init, k);
    }
  }

  lemma {:induction false} PendingShrinks(parse: JsString -> Parsed, t: Tables, bodies: seq<JsString>)
    ensures var u := HandleAll(parse, t, bodies); u.pending <= t.pending && t.settled <= u.settled
  {
    if bodies != [] {
      PendingShrinks(parse, t, bodies[..|bodies| - 1]);
    }
  }

  lemma HandleAllSnoc(parse: JsString -> Parsed, t: Tables, bodies: seq<JsString>, body: JsString)
    ensures HandleAll(parse, t, bodies + [body]) == HandleBody(parse, HandleAll(parse, t, bodies), body)
  {
    assert (bodies + [body])[..|bodies|] == bodies;
  }

  /** `taken` has been cut off the front of `stream`, and `buffer` is what remains to parse. */
  ghost predicate Remaining(stream: JsString, taken: seq<JsString>, buffer: JsString) {
    && Extract(stream).bodies == taken + Extract(buffer).bodies
    && Extract(stream).rest == Extract(buffer).rest
  }

  /** The bodies taken since `before`, handled in order, turn `start` into `now`. */
  ghost predicate Handled(parse: JsString -> Parsed, start: Tables, before: seq<JsString>,
                          taken: seq<JsString>, now: Tables)
  {
    before <= taken && now == HandleAll(parse, start, taken[|before|..])
  }

  /** The loop of `handleData`: what is taken after `before` has been handled, in order. */
  ghost predicate Pumping(parse: JsString -> Parsed, start: Tables, stream: JsString,
                          before: seq<JsString>, taken: seq<JsString>, buffer: JsString, now: Tables)
  {
    && Remaining(stream, taken, buffer)
    && Handled(parse, start, before, taken, now)
  }

  lemma PumpStart(parse: JsString -> Parsed, start: Tables, received: JsString, data: JsString,
                  before: seq<JsString>, buffer: JsString)
    requires Extract(received) == Parse(before, buffer)
    ensures Pumping(parse, start, received + data, before, before, buffer + data, start)
  {
    ChunkIndependence(received, data);
    assert before[|before|..] == [];
  }

  lemma PumpStep(parse: JsString -> Parsed, start: Tables, stream: JsString,
                 before: seq<JsString>, taken: seq<JsString>, buffer: JsString, now: Tables)
    requires Pumping(parse, start, stream, before, taken, buffer, now)
    ensures var c := NextMessage(buffer);
            if c.Wait? then Extract(stream) == Parse(taken, buffer)
            else
              var message := buffer[c.start..c.end];
              Pumping(parse, start, stream, before, taken + [message], buffer[c.end..],
                      HandleBody(parse, now, message))
  {
    hide NextMessage, HandleBody;
    var c := NextMessage(buffer);
    if c.Cut? {
      var message, tail := buffer[c.start..c.end], Extract(buffer[c.end..]).bodies;
      assert taken + ([message] + tail) == taken + [message] + tail;
      HandleAllSnoc(parse, start, taken[|before|..], message);
      assert (taken + [message])[|before|..] == taken[|before|..] + [message];
    }
  }

  /** Every registered request waits in the table or was settled, once. */
  ghost predicate Accounted(t: Tables, registered: set<int>, lastId: nat) {
    && SettledOnce(t.settled, t.pending)
    && registered == t.pending + Ids(t.settled)
    && forall id :: id in registered ==> 1 <= id <= lastId
  }

  lemma PumpEnd(parse: JsString -> Parsed, start: Tables, stream: JsString, before: seq<JsString>,
                taken: seq<JsString>, buffer: JsString, now: Tables, registered: set<int>, lastId: nat)
    requires Pumping(parse, start, stream, before, taken, buffer, now)
    requires Accounted(start, registered, lastId)
    ensures Handled(parse, start, before, taken, now) && Accounted(now, registered, lastId)
  {
    HandleAllSettlesOnce(parse, start, taken[|before|..]);
  }

  class Client {
    const parse: JsString -> Parsed
    var buffer: JsString
    var requestId: nat
    var pending: set<int>
    var diagnostics: map<JsString, JsString>
    ghost var settled: seq<Settlement>  // every resolver call so far
    ghost var registered: set<int>      // every request that reached the table
    ghost var received: JsString        // every chunk read from the server, joined
    ghost var extracted: seq<JsString>  // every body taken out of it
    ghost var written: JsString         // everything sent to the server

    /** However the server's output was cut into chunks, the bodies handled and the buffer are
        those of the whole output; and every registered request waits or was settled once. */
    ghost predicate Valid()
      reads this
    {
      && Extract(received) == Parse(extracted, buffer)
      && Accounted(State(), registered, requestId)
    }

    ghost function State(): Tables
      reads this
    {
      Tables(pending, settled, diagnostics)
    }

    constructor (parse: JsString -> Parsed)
      ensures Valid() && this.parse == parse
      ensures received == [] && extracted == [] && written == [] && requestId == 0
      ensures State() == Tables({}, [], map[])
    {
      this.parse := parse;
      buffer, requestId, pending, diagnostics := [], 0, {}, map[];
      settled, registered, received, extracted, written := [], {}, [], [], [];
    }

    method HandleData(data: JsString)
      requires Valid()
      modifies this
      ensures Valid()
      ensures received == old(received) + data
      ensures Handled(parse, old(State()), old(extracted), extracted, State())
      ensures unchanged(`requestId, `registered, `written)
    {
      ghost var before, start := extracted, State();
      PumpStart(parse, start, received, data, extracted, buffer);
      hide NextMessage, Pumping, Handled, Extract, Accounted;
      buffer := buffer + data;
      received := received + data;
      var more := true;
      while more
        invariant Pumping(parse, start, received, before, extracted, buffer, State())
        invariant !more ==> Extract(received) == Parse(extracted, buffer)
        invariant received == old(received) + data
        invariant unchanged(`requestId, `registered, `written)
        decreases more, |buffer|
      {
        more := TakeMessage(start, before);
      }
      PumpEnd(parse, start, received, before, extracted, buffer, State(), registered, requestId);
    }

    /** One round of the loop: match the header, cut the message if it is complete, handle it. */
    method TakeMessage(ghost start: Tables, ghost before: seq<JsString>) returns (more: bool)
      requires Pumping(parse, start, received, before, extracted, buffer, State())
      modifies this`buffer, this`pending, this`diagnostics, this`settled, this`extracted
      ensures Pumping(parse, start, received, before, extracted, buffer, State())
      ensures if more then |buffer| < |old(buffer)| else Extract(received) == Parse(extracted, buffer)
    {
      PumpStep(parse, start, received, before, extracted, buffer, State());
      hide Pumping, Extract, HandleBody, IsHeader;
      var headerMatch := FindFrom(buffer, 0);
      if headerMatch.NoMatch? {
        return false;
      }
      var headerEnd := BodyStart(headerMatch);
      var messageEnd := headerEnd + ContentLength(buffer, headerMatch);
      if |buffer| < messageEnd {
        return false;
      }
      var message := buffer[headerEnd..messageEnd];
      buffer := buffer[messageEnd..];
      extracted := extracted + [message];
      Dispatch(message);
      return true;
    }

    /** The body of the `try` block: one parsed message. */
    method Dispatch(message: JsString)
      modifies this`pending, this`settled, this`diagnostics
      ensures State() == HandleBody(parse, old(State()), message)
    {
      var parsed := parse(message);
      if parsed.Message? {
        if parsed.id.Some? && parsed.id.value in pending {
          pending := pending - {parsed.id.value};
          settled := settled + [Response(parsed.id.value, message)];
        }
        if parsed.diagnostics.Some? {
          diagnostics := diagnostics[parsed.diagnostics.value.0 := parsed.diagnostics.value.1];
        }
      }
    }

    /** The synchronous part of `request`: a fresh id, and its message framed and written. */
    method SendRequest(json: int -> JsString) returns (id: int)
      requires Valid()
      modifies this`requestId, this`written
      ensures Valid() && id == requestId == old(requestId) + 1 && id !in registered
      ensures written == old(written) + Frame(json(id))
    {
      requestId := requestId + 1;
      id := requestId;
      var message := json(id);
      written := written + (PREFIX + PrintDecimal(|message|) + BLANK_LINE + message);
    }

    /** After the write completes, `request` enters its resolver in the table. */
    method Register(id: int)
      requires Valid() && 1 <= id <= requestId && id !in registered
      modifies this`pending, this`registered
      ensures Valid() && pending == old(pending) + {id} && registered == old(registered) + {id}
    {
      assert id !in Ids(settled);
      pending := pending + {id};
      registered := registered + {id};
    }

    /** The five-second timer: settles the request only if nothing else did. */
    method TimerFires(id: int)
      requires Valid() && id in registered
      modifies this`pending, this`settled
      ensures Valid() && pending == old(pending) - {id}
      ensures settled == if id in old(pending) then old(settled) + [Timeout(id)] else old(settled)
      ensures id in Ids(settled)
    {
      if id in pending {
        pending := pending - {id};
        IdsSnoc(settled, Timeout(id));
        settled := settled + [Timeout(id)];
      }
    }

    method Notify(message: JsString)
      requires Valid()
      modifies this`written
      ensures Valid() && written == old(written) + Frame(message)
    {
      written := written + (PREFIX + PrintDecimal(|message|) + BLANK_LINE + message);
    }
  }

  /** Two clients that parse alike: what the first has written, delivered to the second in any
      chunking, is handled there as exactly the messages sent. */
  lemma WrittenIsHandled(sent: seq<JsString>, client: Client)
    requires client.Valid() && client.received == Frames(sent)
    ensures client.extracted == sent && client.buffer == []
  {
    FramesAreExtracted(sent);
  }
}
