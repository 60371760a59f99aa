/** Remote inference as a protocol: a host that streams events for many requests over one FIFO
    connection, and a guest whose generators drain a queue each and sleep when it is empty. */
module Inference {
  import opened Options

  type Id = nat
  type Ev = string

  /** What travels from the host to the guest, in order. */
  datatype Wire =
    | EventMsg(id: Id, ev: Ev)
    | DoneMsg(id: Id)
    | ErrorMsg(id: Id, error: string)

  /** Where a generator stands. `Running` covers being at a `yield` and being about to look at its
      queue; `Parked` is the `await` of the wake promise; `Stopped` is an early `return()`. */
  datatype Gen = Running | Parked | Returned | Threw(error: string) | Stopped

  datatype Stream = Stream(
    queue: seq<Ev>, finished: bool, failure: Option<string>, wake: bool, gen: Gen,
    registered: bool,      // still in the client's `streams` map
    pushed: seq<Ev>,       // everything ever queued
    yielded: seq<Ev>)      // everything handed to the consumer

  datatype Handler = Handler(emitted: seq<Ev>, ended: bool)

  datatype Sys = Sys(
    host: map<Id, Handler>,
    sent: seq<Wire>,       // everything the host has sent on this connection
    delivered: nat,        // how much of it has reached the guest
    streams: map<Id, Stream>,
    open: bool)

  datatype Action =
    | Start(id: Id)
    | HostReceives(id: Id)
    | HostEmits(id: Id, ev: Ev)
    | HostEnds(id: Id, error: Option<string>)
    | Deliver
    | Resume(id: Id)
    | Abort(id: Id)
    | StopEarly(id: Id)
    | ConnectionCloses

  const FRESH: Stream := Stream([], false, None, false, Running, true, [], [])
  const CANCELLED: string := "Cancelled"
  const HOST_CLOSED: string := "Host connection closed"

  /** `wake?.(); wake = null` */
  function Notify(st: Stream): Stream {
    if st.wake then st.(wake := false, gen := Running) else st
  }

  function Push(st: Stream, ev: Ev): Stream {
    Notify(st.(queue := st.queue + [ev], pushed := st.pushed + [ev]))
  }

  function Done(st: Stream): Stream {
    Notify(st.(finished := true))
  }

  function Fail(st: Stream, error: string): Stream {
    Notify(st.(failure := Some(error), finished := true))
  }

  /** The generator up to its next suspension: an empty error text is falsy and does not throw. */
  function Advance(st: Stream): Stream {
    if st.queue != [] then st.(queue := st.queue[1..], yielded := st.yielded + [st.queue[0]])
    else if st.failure.Some? && st.failure.value != "" then st.(gen := Threw(st.failure.value), registered := false)
    else if st.finished then st.(gen := Returned, registered := false)
    else st.(gen := Parked, wake := true)
  }

  /** `handleMessage` for the stream the message names, if it is registered. */
  function Receive(st: Stream, w: Wire): Stream {
    if !st.registered then st else
      match w
      case EventMsg(_, ev) => Push(st, ev)
      case DoneMsg(_) => Done(st)
      case ErrorMsg(_, error) => Fail(st, error)
  }

  ghost predicate Enabled(s: Sys, a: Action) {
    match a
    case Start(id) => s.open && id !in s.streams && id !in s.host
    case HostReceives(id) => s.open && id in s.streams && id !in s.host
    case HostEmits(id, _) => id in s.host && !s.host[id].ended
    case HostEnds(id, _) => id in s.host && !s.host[id].ended
    case Deliver => s.open && s.delivered < |s.sent|
    case Resume(id) => id in s.streams && s.streams[id].gen.Running?
    case Abort(id) => id in s.streams && s.streams[id].gen in {Running, Parked}
    case StopEarly(id) => id in s.streams && s.streams[id].gen.Running?
    case ConnectionCloses => s.open
  }

  function Step(s: Sys, a: Action): Sys {
    match a
    case Start(id) => s.(streams := s.streams[id := FRESH])
    case HostReceives(id) => s.(host := s.host[id := Handler([], false)])
    case HostEmits(id, ev) =>
      if id !in s.host then s else
        s.(host := s.host[id := s.host[id].(emitted := s.host[id].emitted + [ev])], sent := s.sent + [EventMsg(id, ev)])
    case HostEnds(id, error) =>
      if id !in s.host then s else
        s.(host := s.host[id := s.host[id].(ended := true)],
           sent := s.sent + [if error.Some? then ErrorMsg(id, error.value) else DoneMsg(id)])
    case Deliver =>
      if s.delivered >= |s.sent| then s else
        var w := s.sent[s.delivered];
        s.(delivered := s.delivered + 1,
           streams := if w.id in s.streams then s.streams[w.id := Receive(s.streams[w.id], w)] else s.streams)
    case Resume(id) => if id in s.streams then s.(streams := s.streams[id := Advance(s.streams[id])]) else s
    case Abort(id) => if id in s.streams then s.(streams := s.streams[id := Fail(s.streams[id], CANCELLED)]) else s
    case StopEarly(id) =>
      if id in s.streams then s.(streams := s.streams[id := s.streams[id].(gen := Stopped, registered := false)]) else s
    case ConnectionCloses =>
      s.(open := false, streams := map id | id in s.streams ::
        if s.streams[id].registered then Fail(s.streams[id], HOST_CLOSED).(registered := false) else s.streams[id])
  }

  function Run(actions: seq<Action>): Sys {
    if actions == [] then Sys(map[], [], 0, map[], true) else
      Step(Run(actions[..|actions| - 1]), actions[|actions| - 1])
  }

  ghost predicate Legal(actions: seq<Action>) {
    forall k :: 0 <= k < |actions| ==> Enabled(Run(actions[..k]), actions[k])
  }

  // -- What one step does ----------------------------------------------------

  /** No other stream, host or connection is touched. */
  ghost predicate OnlyStream(s: Sys, t: Sys, id: Id) {
    t == s.(streams := t.streams) && t.streams.Keys == s.streams.Keys
    && forall g :: g in s.streams && g != id ==> t.streams[g] == s.streams[g]
  }

  /** A generator that is resumed yields the oldest event that is queued. With none left it throws a
      failure that has a text, else returns if it was told of an end, and either way its stream is
      forgotten; else it goes to sleep. */
  lemma ResumingIs(s: Sys, id: Id)
    requires id in s.streams
    ensures var t := Step(s, Resume(id));
            && OnlyStream(s, t, id)
            && var a, b := s.streams[id], t.streams[id];
            && b.pushed == a.pushed && b.finished == a.finished && b.failure == a.failure
            && (a.queue != [] ==>
                  b.yielded == a.yielded + [a.queue[0]] && [a.queue[0]] + b.queue == a.queue && b.gen == a.gen)
            && (a.queue == [] ==> b.yielded == a.yielded && b.queue == [])
            && (a.queue == [] && a.failure.Some? && a.failure.value != "" ==>
                  b.gen == Threw(a.failure.value) && !b.registered)
            && (a.queue == [] && (a.failure.None? || a.failure.value == "") && a.finished ==>
                  b.gen == Returned && !b.registered)
            && (a.queue == [] && (a.failure.None? || a.failure.value == "") && !a.finished ==>
                  b.gen == Parked && b.wake && b.registered == a.registered)
  {
  }

  /** The next message reaches the stream it names, if that is registered, and wakes its generator: an
      event is queued behind the others, an end finishes the stream, with the error if it is one. */
  lemma DeliveryIs(s: Sys)
    requires s.delivered < |s.sent|
    ensures var w, t := s.sent[s.delivered], Step(s, Deliver);
            && t.delivered == s.delivered + 1 && t.sent == s.sent && t.host == s.host && t.open == s.open
            && t.streams.Keys == s.streams.Keys
            && (forall g :: g in s.streams && (g != w.id || !s.streams[g].registered) ==> t.streams[g] == s.streams[g])
            && (w.id in s.streams && s.streams[w.id].registered ==>
                  var a, b := s.streams[w.id], t.streams[w.id];
                  && !b.wake && b.registered && b.yielded == a.yielded && (a.wake ==> b.gen == Running)
                  && (!a.wake ==> b.gen == a.gen)
                  && b.queue == (if w.EventMsg? then a.queue + [w.ev] else a.queue)
                  && b.pushed == (if w.EventMsg? then a.pushed + [w.ev] else a.pushed)
                  && b.finished == (if w.EventMsg? then a.finished else true)
                  && b.failure == if w.ErrorMsg? then Some(w.error) else a.failure)
  {
  }

  /** Whatever the host emits goes on the wire behind the rest, and so does its end of a request. */
  lemma HostSendingIs(s: Sys, id: Id, ev: Ev, error: Option<string>)
    requires id in s.host
    ensures var t := Step(s, HostEmits(id, ev));
            && t.sent == s.sent + [EventMsg(id, ev)] && t.delivered == s.delivered && t.streams == s.streams
            && t.open == s.open && t.host.Keys == s.host.Keys
            && t.host[id] == Handler(s.host[id].emitted + [ev], s.host[id].ended)
            && forall g :: g in s.host && g != id ==> t.host[g] == s.host[g]
    ensures var t := Step(s, HostEnds(id, error));
            && t.sent == s.sent + [if error.None? then DoneMsg(id) else ErrorMsg(id, error.value)]
            && t.delivered == s.delivered && t.streams == s.streams && t.open == s.open && t.host.Keys == s.host.Keys
            && t.host[id] == Handler(s.host[id].emitted, true)
            && forall g :: g in s.host && g != id ==> t.host[g] == s.host[g]
  {
  }

  /** A request opens a fresh stream; its handler starts with nothing emitted. An abort fails the stream
      and wakes its generator, an early return forgets it, and the end of the connection fails and
      forgets every stream that is registered. */
  lemma OtherStepsAre(s: Sys, id: Id)
    ensures Step(s, Start(id)) ==
            s.(streams := s.streams[id := Stream([], false, None, false, Running, true, [], [])])
    ensures Step(s, HostReceives(id)) == s.(host := s.host[id := Handler([], false)])
    ensures id in s.streams ==>
              var t, a := Step(s, Abort(id)), s.streams[id];
              && OnlyStream(s, t, id)
              && t.streams[id] == a.(finished := true, failure := Some("Cancelled"), wake := false,
                                     gen := if a.wake then Running else a.gen)
    ensures id in s.streams ==>
              var t, a := Step(s, StopEarly(id)), s.streams[id];
              OnlyStream(s, t, id) && t.streams[id] == a.(gen := Stopped, registered := false)
    ensures var t := Step(s, ConnectionCloses);
            && !t.open && t.sent == s.sent && t.delivered == s.delivered && t.host == s.host
            && t.streams.Keys == s.streams.Keys
            && (id in s.streams && !s.streams[id].registered ==> t.streams[id] == s.streams[id])
            && (id in s.streams && s.streams[id].registered ==>
                  var a := s.streams[id];
                  t.streams[id] == a.(finished := true, failure := Some("Host connection closed"), wake := false,
                                      gen := if a.wake then Running else a.gen, registered := false))
  {
  }

  /** A run is its steps, one after the other, from an open connection on which nothing has happened. */
  lemma RunGoesOn(actions: seq<Action>, a: Action)
    ensures Run([]) == Sys(map[], [], 0, map[], true)
    ensures Run(actions + [a]) == Step(Run(actions), a)
  {
    assert (actions + [a])[..|actions|] == actions;
  }

  // -- What the wire carries for one request ---------------------------------

  function Events(w: seq<Wire>, id: Id): seq<Ev> {
    if w == [] then [] else
      var last := w[|w| - 1];
      Events(w[..|w| - 1], id) + if last.EventMsg? && last.id == id then [last.ev] else []
  }

  function Ends(w: seq<Wire>, id: Id): nat {
    if w == [] then 0 else
      var last := w[|w| - 1];
      Ends(w[..|w| - 1], id) + if !last.EventMsg? && last.id == id then 1 else 0
  }

  lemma Snoc(w: seq<Wire>, m: Wire, id: Id)
    ensures Events(w + [m], id) == Events(w, id) + if m.EventMsg? && m.id == id then [m.ev] else []
    ensures Ends(w + [m], id) == Ends(w, id) + if !m.EventMsg? && m.id == id then 1 else 0
  {
    assert (w + [m])[..|w|] == w;
  }

  /** No message for the request follows an end of it. */
  ghost predicate Closed(w: seq<Wire>, id: Id) {
    w != [] ==>
      && Closed(w[..|w| - 1], id)
      && (w[|w| - 1].id == id ==> Ends(w[..|w| - 1], id) == 0)
  }

  lemma ClosedSnoc(w: seq<Wire>, m: Wire, id: Id)
    requires Closed(w, id) && (m.id == id ==> Ends(w, id) == 0)
    ensures Closed(w + [m], id)
  {
    assert (w + [m])[..|w|] == w;
  }

  /** Once an end is among the first `n` messages, it is the only one and the rest is for others. */
  lemma {:induction false} EndIsLast(w: seq<Wire>, n: nat, id: Id)
    requires Closed(w, id) && n <= |w| && Ends(w[..n], id) >= 1
    ensures Ends(w, id) == 1 && forall k :: n <= k < |w| ==> w[k].id != id
    decreases |w|
  {
    var init := w[..|w| - 1];
    if n == |w| {
      assert w[..n] == w;
      if Ends(init, id) >= 1 {
        assert init[..|init|] == init;
        EndIsLast(init, |init|, id);
      }
    } else {
      assert init[..n] == w[..n];
      EndIsLast(init, n, id);
      if w[|w| - 1].id == id {
        EndsGrow(init, n, id);
        assert false;
      }
    }
  }

  lemma {:induction false} EndsGrow(w: seq<Wire>, n: nat, id: Id)
    requires n <= |w|
    ensures Ends(w[..n], id) <= Ends(w, id) && Events(w[..n], id) <= Events(w, id)
  {
    if n == |w| {
      assert w[..n] == w;
    } else {
      EndsGrow(w[..|w| - 1], n, id);
      assert w[..|w| - 1][..n] == w[..n];
    }
  }

  /** After the end of a request nothing is missing from the prefix that holds it. */
  lemma {:induction false} NothingAfter(w: seq<Wire>, n: nat, id: Id)
    requires n <= |w| && forall k :: n <= k < |w| ==> w[k].id != id
    ensures Events(w[..n], id) == Events(w, id) && Ends(w[..n], id) == Ends(w, id)
  {
    if n == |w| {
      assert w[..n] == w;
    } else {
      NothingAfter(w[..|w| - 1], n, id);
      assert w[..|w| - 1][..n] == w[..n];
    }
  }

  // -- Invariants ------------------------------------------------------------

  /** The host sends, for each request, its events in order and then at most one end. */
  ghost predicate HostInv(s: Sys, id: Id) {
    && Closed(s.sent, id)
    && (id in s.host ==>
          Events(s.sent, id) == s.host[id].emitted && Ends(s.sent, id) == if s.host[id].ended then 1 else 0)
    && (id !in s.host ==> Events(s.sent, id) == [] && Ends(s.sent, id) == 0)
  }

  /** One stream on its own: nothing queued is lost or reordered, and a sleeping generator has
      nothing to do. */
  ghost predicate StreamInv(st: Stream) {
    && st.pushed == st.yielded + st.queue
    && (st.wake <==> st.gen.Parked?)
    && (st.wake ==> st.queue == [] && !st.finished)
    && (st.failure.Some? ==> st.finished)
    && (st.gen.Threw? || st.gen.Returned? ==> st.queue == [] && !st.registered)
    && (st.gen.Returned? ==> st.finished && Quiet(st))
    && (st.gen.Stopped? ==> !st.registered)
  }

  /** No failure that would make the generator throw. */
  predicate Quiet(st: Stream) {
    st.failure.None? || st.failure.value == ""
  }

  /** A stream against the wire: while it is registered it holds exactly what was delivered for
      it, and it can only finish quietly by the end of its request having been delivered. */
  ghost predicate LinkInv(s: Sys, id: Id, st: Stream)
    requires s.delivered <= |s.sent|
  {
    var got := s.sent[..s.delivered];
    && (st.registered ==> s.open && st.pushed == Events(got, id))
    && st.pushed <= Events(got, id)
    && (st.registered && Ends(got, id) >= 1 ==> st.finished)
    && (st.finished && Quiet(st) ==> Ends(got, id) >= 1 && st.pushed == Events(got, id))
  }

  ghost predicate Inv(s: Sys) {
    && s.delivered <= |s.sent|
    && (forall id :: HostInv(s, id))
    && (forall id :: id in s.streams ==> StreamInv(s.streams[id]) && LinkInv(s, id, s.streams[id]))
    && (forall id :: id in s.host ==> id in s.streams)
  }

  lemma HostSendsKeepsInv(s: Sys, m: Wire, h: Handler)
    requires Inv(s) && m.id in s.host && !s.host[m.id].ended
    requires h == if m.EventMsg? then s.host[m.id].(emitted := s.host[m.id].emitted + [m.ev])
                  else s.host[m.id].(ended := true)
    ensures Inv(s.(host := s.host[m.id := h], sent := s.sent + [m]))
  {
    hide StreamInv;
    var t := s.(host := s.host[m.id := h], sent := s.sent + [m]);
    forall id ensures HostInv(t, id) {
      assert HostInv(s, id) && HostInv(s, m.id);
      Snoc(s.sent, m, id);
      ClosedSnoc(s.sent, m, id);
    }
    assert t.sent[..t.delivered] == s.sent[..s.delivered];
  }

  lemma ReceiveKeepsInv(s: Sys)
    requires Inv(s) && s.open && s.delivered < |s.sent|
    ensures Inv(Step(s, Deliver))
  {
    hide HostInv;
    var w, t := s.sent[s.delivered], Step(s, Deliver);
    assert s.sent[..t.delivered] == s.sent[..s.delivered] + [w];
    forall id | id in t.streams ensures StreamInv(t.streams[id]) && LinkInv(t, id, t.streams[id]) {
      Snoc(s.sent[..s.delivered], w, id);
      assert StreamInv(s.streams[id]) && LinkInv(s, id, s.streams[id]);
      EndIsAlone(s, id);
    }
    forall id ensures HostInv(t, id) {
      assert HostInv(s, id);
      SameHost(s, t, id);
    }
  }

  lemma SameHost(s: Sys, t: Sys, id: Id)
    requires HostInv(s, id) && t.sent == s.sent && t.host == s.host
    ensures HostInv(t, id)
  {
  }

  /** A message still to come for a request means that its end has not been delivered. */
  lemma EndIsAlone(s: Sys, id: Id)
    requires Inv(s) && s.delivered < |s.sent|
    ensures s.sent[s.delivered].id == id ==> Ends(s.sent[..s.delivered], id) == 0
  {
    assert HostInv(s, id);
    if Ends(s.sent[..s.delivered], id) >= 1 {
      EndIsLast(s.sent, s.delivered, id);
    }
  }

  lemma StreamStepKeepsInv(s: Sys, id: Id, st: Stream)
    requires Inv(s) && id in s.streams && StreamInv(st) && LinkInv(s, id, st)
    ensures Inv(s.(streams := s.streams[id := st]))
  {
    hide StreamInv, HostInv;
    var t := s.(streams := s.streams[id := st]);
    forall i ensures HostInv(t, i) {
      assert HostInv(s, i);
      SameHost(s, t, i);
    }
  }

  /** Resuming, aborting and stopping early touch one stream. */
  lemma ConsumerKeepsInv(s: Sys, id: Id)
    requires Inv(s) && id in s.streams
    ensures s.streams[id].gen.Running? ==> Inv(Step(s, Resume(id))) && Inv(Step(s, StopEarly(id)))
    ensures s.streams[id].gen in {Running, Parked} ==> Inv(Step(s, Abort(id)))
  {
    hide Events, Ends, HostInv;
    var st := s.streams[id];
    assert StreamInv(st) && LinkInv(s, id, st);
    if st.gen.Running? {
      StreamStepKeepsInv(s, id, Advance(st));
      StreamStepKeepsInv(s, id, st.(gen := Stopped, registered := false));
    }
    if st.gen in {Running, Parked} {
      StreamStepKeepsInv(s, id, Fail(st, CANCELLED));
    }
  }

  lemma StartKeepsInv(s: Sys, id: Id)
    requires Inv(s) && Enabled(s, Start(id))
    ensures Inv(Step(s, Start(id)))
  {
    var t := Step(s, Start(id));
    assert HostInv(s, id);
    EndsGrow(s.sent, s.delivered, id);
    forall i ensures HostInv(t, i) {
      assert HostInv(s, i);
    }
  }

  lemma HostReceivesKeepsInv(s: Sys, id: Id)
    requires Inv(s) && Enabled(s, HostReceives(id))
    ensures Inv(Step(s, HostReceives(id)))
  {
    hide StreamInv;
    var t := Step(s, HostReceives(id));
    forall i ensures HostInv(t, i) {
      assert HostInv(s, i);
    }
  }

  lemma CloseKeepsInv(s: Sys)
    requires Inv(s) && s.open
    ensures Inv(Step(s, ConnectionCloses))
  {
    var t := Step(s, ConnectionCloses);
    forall id | id in t.streams ensures StreamInv(t.streams[id]) && LinkInv(t, id, t.streams[id]) {
      assert StreamInv(s.streams[id]) && LinkInv(s, id, s.streams[id]);
    }
    forall i ensures HostInv(t, i) {
      assert HostInv(s, i);
    }
  }

  lemma StepKeepsInv(s: Sys, a: Action)
    requires Inv(s) && Enabled(s, a)
    ensures Inv(Step(s, a))
  {
    hide Inv, HostInv, Events, Ends;
    match a
    case Start(id) => StartKeepsInv(s, id);
    case HostReceives(id) => HostReceivesKeepsInv(s, id);
    case HostEmits(id, ev) =>
      HostSendsKeepsInv(s, EventMsg(id, ev), s.host[id].(emitted := s.host[id].emitted + [ev]));
    case HostEnds(id, error) =>
      HostSendsKeepsInv(s, if error.Some? then ErrorMsg(id, error.value) else DoneMsg(id), s.host[id].(ended := true));
    case Deliver => ReceiveKeepsInv(s);
    case Resume(id) => ConsumerKeepsInv(s, id);
    case Abort(id) => ConsumerKeepsInv(s, id);
    case StopEarly(id) => ConsumerKeepsInv(s, id);
    case ConnectionCloses => CloseKeepsInv(s);
  }

  lemma NothingSentYet()
    ensures Inv(Sys(map[], [], 0, map[], true))
  {
  }

  lemma {:induction false} RunKeepsInv(actions: seq<Action>)
    requires Legal(actions)
    ensures Inv(Run(actions))
  {
    hide Step, Enabled, HostInv, StreamInv, LinkInv;
    if actions == [] {
      NothingSentYet();
    } else {
      hide Inv;
      var init := actions[..|actions| - 1];
      assert forall k :: 0 <= k < |init| ==> init[..k] == actions[..k];
      RunKeepsInv(init);
      StepKeepsInv(Run(init), actions[|init|]);
    }
  }

  // -- What a caller can rely on ---------------------------------------------

  /** In every reachable state of every run, for every request: what was yielded is a prefix of
      what was queued, which is a prefix of what the host emitted; a normal return has yielded all
      of it; a throw comes only after draining; the host ends a request at most once, after all
      its events; and a waiting generator has an empty queue and an unfinished stream. */
  lemma PipeIsOrderedAndComplete(actions: seq<Action>, id: Id)
    requires Legal(actions) && id in Run(actions).streams
    ensures var s := Run(actions);
            var st := s.streams[id];
            var emitted := if id in s.host then s.host[id].emitted else [];
            && st.yielded <= st.pushed <= emitted == Events(s.sent, id)
            && (st.gen.Returned? ==> st.yielded == emitted && id in s.host && s.host[id].ended)
            && (st.gen.Threw? ==> st.yielded == st.pushed)
            && Ends(s.sent, id) == (if id in s.host && s.host[id].ended then 1 else 0)
            && Closed(s.sent, id)
            && (st.wake <==> st.gen.Parked?)
            && (st.wake ==> st.queue == [] && !st.finished)
  {
    RunKeepsInv(actions);
    var s := Run(actions);
    assert HostInv(s, id);
    assert StreamInv(s.streams[id]) && LinkInv(s, id, s.streams[id]);
    EndsGrow(s.sent, s.delivered, id);
    if Ends(s.sent[..s.delivered], id) >= 1 {
      EndIsLast(s.sent, s.delivered, id);
      NothingAfter(s.sent, s.delivered, id);
    }
  }

  /** No wake-up is lost: a registered generator that sleeps after its host has ended the request
      still has a message on the way, and any message for it, an abort or the closing of the
      connection wakes it. */
  lemma SleepersAreWoken(actions: seq<Action>, id: Id)
    requires Legal(actions) && id in Run(actions).streams
    requires Run(actions).streams[id].gen.Parked? && Run(actions).streams[id].registered
    ensures var s := Run(actions);
            && (id in s.host && s.host[id].ended ==>
                  exists k :: s.delivered <= k < |s.sent| && s.sent[k].id == id)
            && (forall w :: Receive(s.streams[id], w).gen.Running?)
            && (forall e :: Fail(s.streams[id], e).gen.Running?)
  {
    RunKeepsInv(actions);
    hide Run, Ends, Events;
    var s := Run(actions);
    assert StreamInv(s.streams[id]) && LinkInv(s, id, s.streams[id]);
    if id in s.host && s.host[id].ended && forall k :: s.delivered <= k < |s.sent| ==> s.sent[k].id != id {
      assert HostInv(s, id);
      NothingAfter(s.sent, s.delivered, id);
      assert false;
    }
  }

  // -- How a generator ends --------------------------------------------------

  /** The error the host reported for a request, if it did. */
  function Reported(w: seq<Wire>, id: Id): Option<string> {
    if w == [] then None else
      var last := w[|w| - 1];
      if last.ErrorMsg? && last.id == id then Some(last.error) else Reported(w[..|w| - 1], id)
  }

  /** No error, or one without a text. */
  predicate Silent(report: Option<string>) {
    report.None? || report.value == ""
  }

  lemma ReportedSnoc(w: seq<Wire>, m: Wire, id: Id)
    ensures Reported(w + [m], id) == if m.ErrorMsg? && m.id == id then Some(m.error) else Reported(w, id)
  {
    assert (w + [m])[..|w|] == w;
  }

  lemma {:induction false} ReportIsAnEnd(w: seq<Wire>, id: Id)
    ensures Ends(w, id) == 0 ==> Reported(w, id).None?
  {
    if w != [] {
      ReportIsAnEnd(w[..|w| - 1], id);
    }
  }

  lemma {:induction false} ReportedStays(w: seq<Wire>, n: nat, id: Id)
    requires n <= |w| && forall k :: n <= k < |w| ==> w[k].id != id
    ensures Reported(w, id) == Reported(w[..n], id)
  {
    if n == |w| {
      assert w[..n] == w;
    } else {
      ReportedStays(w[..|w| - 1], n, id);
      assert w[..|w| - 1][..n] == w[..n];
    }
  }

  /** Where a failure may come from: the host's report, an abort, or the end of the connection. */
  predicate Source(error: string, report: Option<string>, aborted: bool, closed: bool) {
    report == Some(error) || (aborted && error == CANCELLED) || (closed && error == HOST_CLOSED)
  }

  /** A failure has a source; a stream that finished without one that throws was told of none; and a
      generator throws what failed its stream. */
  predicate Told(st: Stream, report: Option<string>, aborted: bool, closed: bool) {
    && (st.failure.Some? ==> Source(st.failure.value, report, aborted, closed))
    && (st.finished && Quiet(st) ==> Silent(report))
    && (st.gen.Threw? ==> st.gen.error != "" && st.failure == Some(st.gen.error))
  }

  lemma DeliverKeepsTold(s: Sys, id: Id, aborted: bool, closed: bool)
    requires Inv(s) && s.open && s.delivered < |s.sent| && id in s.streams
    requires Told(s.streams[id], Reported(s.sent[..s.delivered], id), aborted, closed)
    ensures var t := Step(s, Deliver);
            Told(t.streams[id], Reported(t.sent[..t.delivered], id), aborted, closed)
  {
    hide HostInv, Closed, Events;
    var got, w := s.sent[..s.delivered], s.sent[s.delivered];
    assert s.sent[..s.delivered + 1] == got + [w];
    assert StreamInv(s.streams[id]) && LinkInv(s, id, s.streams[id]);
    ReportedSnoc(got, w, id);
    EndIsAlone(s, id);
    ReportIsAnEnd(got, id);
  }

  lemma StepKeepsTold(s: Sys, a: Action, id: Id, aborted: bool, closed: bool)
    requires Inv(s) && Enabled(s, a) && id in Step(s, a).streams
    requires id in s.streams ==> Told(s.streams[id], Reported(s.sent[..s.delivered], id), aborted, closed)
    ensures var t := Step(s, a);
            t.delivered <= |t.sent| &&
            Told(t.streams[id], Reported(t.sent[..t.delivered], id),
                 aborted || a == Abort(id), closed || a.ConnectionCloses?)
  {
    var t := Step(s, a);
    if a.Deliver? {
      DeliverKeepsTold(s, id, aborted, closed);
    } else {
      assert t.sent[..t.delivered] == s.sent[..s.delivered];
      assert id in s.streams ==> StreamInv(s.streams[id]);
      hide Inv, Reported, Told, StreamInv;
      var report := Reported(s.sent[..s.delivered], id);
      if id in s.streams {
        OwnStepKeepsTold(s.streams[id], report, aborted, closed);
      } else {
        FreshIsTold(report, aborted, closed);
      }
    }
  }

  lemma FreshIsTold(report: Option<string>, aborted: bool, closed: bool)
    ensures Told(FRESH, report, aborted, closed)
  {
  }

  /** What a stream goes through without a message. */
  lemma OwnStepKeepsTold(st: Stream, report: Option<string>, aborted: bool, closed: bool)
    requires StreamInv(st) && Told(st, report, aborted, closed)
    ensures Told(st, report, true, closed) && Told(st, report, aborted, true)
    ensures st.gen.Running? ==> Told(Advance(st), report, aborted, closed)
    ensures st.gen.Running? ==> Told(st.(gen := Stopped, registered := false), report, aborted, closed)
    ensures st.gen in {Running, Parked} ==> Told(Fail(st, CANCELLED), report, true, closed)
    ensures st.registered ==> Told(Fail(st, HOST_CLOSED).(registered := false), report, aborted, true)
  {
  }

  lemma {:induction false} RunKeepsTold(actions: seq<Action>, id: Id)
    requires Legal(actions) && id in Run(actions).streams
    ensures var s := Run(actions);
            s.delivered <= |s.sent| &&
            Told(s.streams[id], Reported(s.sent[..s.delivered], id), Abort(id) in actions, ConnectionCloses in actions)
  {
    hide Step, Enabled, Inv, Told, Reported;
    if actions != [] {
      var init, last := actions[..|actions| - 1], actions[|actions| - 1];
      assert forall k :: 0 <= k < |init| ==> init[..k] == actions[..k];
      assert actions == init + [last];
      RunKeepsInv(init);
      if id in Run(init).streams {
        RunKeepsTold(init, id);
      }
      StepKeepsTold(Run(init), last, id, Abort(id) in init, ConnectionCloses in init);
    }
  }

  /** How a generator ends, in every run: it returns only if the host has ended the request and reported
      no error or an empty one, and it throws only the host's report, or the text of an abort or of a
      closed connection if there was one. So where neither happened, a generator that has ended returned
      exactly if the report was silent, even if it was an error; any other it threw. */
  lemma EndOfRunIff(actions: seq<Action>, id: Id)
    requires Legal(actions) && id in Run(actions).streams
    ensures var s := Run(actions);
            var gen, report := s.streams[id].gen, Reported(s.sent, id);
            && (gen.Returned? ==> Ends(s.sent, id) == 1 && Silent(report))
            && (gen.Threw? ==>
                  && gen.error != ""
                  && Source(gen.error, report, Abort(id) in actions, ConnectionCloses in actions))
            && ((gen.Returned? || gen.Threw?) && Abort(id) !in actions && ConnectionCloses !in actions ==>
                  gen == if Silent(report) then Returned else Threw(report.value))
  {
    RunKeepsTold(actions, id);
    RunKeepsInv(actions);
    var s := Run(actions);
    var got, st := s.sent[..s.delivered], s.streams[id];
    assert HostInv(s, id) && StreamInv(st) && LinkInv(s, id, st);
    ReportIsAnEnd(got, id);
    if Ends(got, id) >= 1 {
      EndIsLast(s.sent, s.delivered, id);
      ReportedStays(s.sent, s.delivered, id);
    }
  }

  // -- When a generator sleeps for ever --------------------------------------

  function RunFrom(s: Sys, more: seq<Action>): Sys {
    if more == [] then s else Step(RunFrom(s, more[..|more| - 1]), more[|more| - 1])
  }

  ghost predicate LegalFrom(s: Sys, more: seq<Action>) {
    forall k :: 0 <= k < |more| ==> Enabled(RunFrom(s, more[..k]), more[k])
  }

  ghost predicate Sleeps(s: Sys, id: Id) {
    id in s.streams && s.streams[id].gen.Parked? && s.streams[id].wake && s.streams[id].registered
  }

  /** The steps that end a sleep: a message for the request, an abort, the end of the connection. */
  predicate Wakes(s: Sys, a: Action, id: Id) {
    match a
    case Deliver => s.delivered < |s.sent| && s.sent[s.delivered].id == id
    case Abort(g) => g == id
    case ConnectionCloses => true
    case _ => false
  }

  lemma OneStepOfSleep(s: Sys, a: Action, id: Id)
    requires Sleeps(s, id) && Enabled(s, a)
    ensures id in Step(s, a).streams
    ensures if Wakes(s, a, id) then Step(s, a).streams[id].gen.Running? else Step(s, a).streams[id] == s.streams[id]
  {
  }

  lemma LegalPrefix(s: Sys, more: seq<Action>)
    requires more != [] && LegalFrom(s, more)
    ensures LegalFrom(s, more[..|more| - 1]) && Enabled(RunFrom(s, more[..|more| - 1]), more[|more| - 1])
  {
    hide Enabled;
    assert forall k :: 0 <= k < |more| - 1 ==> more[..|more| - 1][..k] == more[..k];
  }

  ghost predicate Unmoved(s: Sys, t: Sys, id: Id)
    requires id in s.streams
  {
    id in t.streams && t.streams[id] == s.streams[id]
  }

  ghost predicate SleepsThrough(s: Sys, more: seq<Action>, id: Id)
    requires id in s.streams
  {
    forall n :: 0 <= n <= |more| ==> Unmoved(s, RunFrom(s, more[..n]), id)
  }

  lemma SleepsThroughSnoc(s: Sys, more: seq<Action>, id: Id)
    requires id in s.streams && more != []
    ensures SleepsThrough(s, more, id) <==>
            SleepsThrough(s, more[..|more| - 1], id) && Unmoved(s, RunFrom(s, more), id)
  {
    hide RunFrom;
    var init := more[..|more| - 1];
    assert forall n :: 0 <= n <= |init| ==> init[..n] == more[..n];
    assert more[..|more|] == more;
  }

  ghost predicate NeverWoken(s: Sys, more: seq<Action>, id: Id) {
    forall k :: 0 <= k < |more| ==> !Wakes(RunFrom(s, more[..k]), more[k], id)
  }

  lemma NeverWokenSnoc(s: Sys, more: seq<Action>, id: Id)
    requires more != []
    ensures NeverWoken(s, more, id) <==>
            NeverWoken(s, more[..|more| - 1], id) &&
            !Wakes(RunFrom(s, more[..|more| - 1]), more[|more| - 1], id)
  {
    hide RunFrom, Wakes;
    var init := more[..|more| - 1];
    assert forall k :: 0 <= k < |init| ==> init[..k] == more[..k] && init[k] == more[k];
  }

  lemma SleptSoFar(s: Sys, more: seq<Action>, id: Id)
    requires id in s.streams && SleepsThrough(s, more, id)
    ensures Unmoved(s, RunFrom(s, more), id)
  {
    assert more[..|more|] == more;
  }

  /** A sleeping generator sleeps through a run if and only if none of its steps wakes it. */
  lemma {:induction false} SleepsThroughIff(s: Sys, more: seq<Action>, id: Id)
    requires Sleeps(s, id) && LegalFrom(s, more)
    ensures SleepsThrough(s, more, id) <==> NeverWoken(s, more, id)
    decreases |more|
  {
    if more == [] {
      assert more[..0] == [];
    } else {
      hide Step, Enabled, Wakes, SleepsThrough, NeverWoken, LegalFrom;
      var init, last := more[..|more| - 1], more[|more| - 1];
      LegalPrefix(s, more);
      SleepsThroughIff(s, init, id);
      SleepsThroughSnoc(s, more, id);
      NeverWokenSnoc(s, more, id);
      if SleepsThrough(s, init, id) {
        SleptSoFar(s, init, id);
        OneStepOfSleep(RunFrom(s, init), last, id);
      }
    }
  }

  /** Nothing for the request is on its way. */
  ghost predicate NothingComing(s: Sys, id: Id) {
    forall k :: s.delivered <= k < |s.sent| ==> s.sent[k].id != id
  }

  /** What the host does for one request. */
  predicate HostActs(a: Action, id: Id) {
    (a.HostEmits? || a.HostEnds?) && a.id == id
  }

  lemma StillNothingComing(s: Sys, a: Action, id: Id)
    requires NothingComing(s, id) && !HostActs(a, id)
    ensures NothingComing(Step(s, a), id)
  {
  }

  /** Once nothing is on its way, a generator whose host falls silent sleeps until it is aborted or
      its connection ends, however long that takes; the host leaving the relay does neither. */
  lemma {:induction false} SilentHostIsWaitedFor(s: Sys, more: seq<Action>, id: Id)
    requires Sleeps(s, id) && NothingComing(s, id) && LegalFrom(s, more)
    requires forall k :: 0 <= k < |more| ==>
               !HostActs(more[k], id) && more[k] != Abort(id) && !more[k].ConnectionCloses?
    ensures NothingComing(RunFrom(s, more), id)
    ensures id in RunFrom(s, more).streams && RunFrom(s, more).streams[id] == s.streams[id]
    decreases |more|
  {
    hide Step, Enabled;
    if more != [] {
      var init := more[..|more| - 1];
      LegalPrefix(s, more);
      SilentHostIsWaitedFor(s, init, id);
      StillNothingComing(RunFrom(s, init), more[|init|], id);
      OneStepOfSleep(RunFrom(s, init), more[|init|], id);
    }
  }

  lemma {:induction false} NoNewsNoMessage(w: seq<Wire>, id: Id, k: nat)
    requires k < |w| && Events(w, id) == [] && Ends(w, id) == 0
    ensures w[k].id != id
    decreases |w|
  {
    if k < |w| - 1 {
      NoNewsNoMessage(w[..|w| - 1], id, k);
    }
  }

  lemma StillUnknown(s: Sys, a: Action, id: Id)
    requires id !in s.host && a != HostReceives(id)
    ensures id !in Step(s, a).host
  {
  }

  lemma UnknownDoesNotAct(s: Sys, a: Action, id: Id)
    requires id !in s.host && Enabled(s, a)
    ensures !HostActs(a, id)
  {
  }

  /** A request that does not reach the host is waited for in the same way. */
  lemma {:induction false} DroppedRequestIsWaitedFor(s: Sys, more: seq<Action>, id: Id)
    requires Inv(s) && Sleeps(s, id) && id !in s.host && LegalFrom(s, more)
    requires forall k :: 0 <= k < |more| ==>
               more[k] != HostReceives(id) && more[k] != Abort(id) && !more[k].ConnectionCloses?
    ensures id !in RunFrom(s, more).host && NothingComing(RunFrom(s, more), id)
    ensures id in RunFrom(s, more).streams && RunFrom(s, more).streams[id] == s.streams[id]
    decreases |more|
  {
    if more == [] {
      assert HostInv(s, id);
      forall k | s.delivered <= k < |s.sent| ensures s.sent[k].id != id {
        NoNewsNoMessage(s.sent, id, k);
      }
    } else {
      hide Step, Enabled, Inv;
      var init := more[..|more| - 1];
      LegalPrefix(s, more);
      DroppedRequestIsWaitedFor(s, init, id);
      UnknownDoesNotAct(RunFrom(s, init), more[|init|], id);
      StillUnknown(RunFrom(s, init), more[|init|], id);
      StillNothingComing(RunFrom(s, init), more[|init|], id);
      OneStepOfSleep(RunFrom(s, init), more[|init|], id);
    }
  }
}
