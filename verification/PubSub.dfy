/** The in-process broker: every subscriber gets what is published while it is subscribed. */
module PubSub {

  /** What a subscriber has been given; a closed stream is given nothing more. */
  datatype Stream<T> = Stream(log: seq<T>, open: bool)
  /** The streams handed out so far; the one with number `n` is at place `n - 1`. */
  datatype State<T> = State(streams: seq<Stream<T>>, isShutdown: bool)
  datatype Op<T> = Subscribe | Publish(item: T) | Unsubscribe(id: nat) | Shutdown

  function Given<T>(s: Stream<T>, item: T): Stream<T> {
    if s.open then Stream(s.log + [item], true) else s
  }

  function Closed<T>(s: Stream<T>): Stream<T> {
    s.(open := false)
  }

  function Apply<T>(b: State<T>, op: Op<T>): State<T> {
    match op
    case Subscribe => if b.isShutdown then b else b.(streams := b.streams + [Stream([], true)])
    case Publish(item) =>
      b.(streams := seq(|b.streams|, i requires 0 <= i < |b.streams| => Given(b.streams[i], item)))
    case Unsubscribe(id) =>
      if 0 < id <= |b.streams| then b.(streams := b.streams[id - 1 := Closed(b.streams[id - 1])]) else b
    case Shutdown =>
      State(seq(|b.streams|, i requires 0 <= i < |b.streams| => Closed(b.streams[i])), true)
  }

  function Run<T>(b: State<T>, ops: seq<Op<T>>): State<T>
    decreases |ops|
  {
    if ops == [] then b else Run(Apply(b, ops[0]), ops[1..])
  }

  function Start<T>(): State<T> {
    State([], false)
  }

  function Published<T>(ops: seq<Op<T>>): seq<T> {
    if ops == [] then [] else
      (if ops[0].Publish? then [ops[0].item] else []) + Published(ops[1..])
  }

  predicate Ends<T>(op: Op<T>, id: nat) {
    op.Shutdown? || (op.Unsubscribe? && op.id == id)
  }

  lemma {:induction false} RunAppend<T>(b: State<T>, x: seq<Op<T>>, y: seq<Op<T>>)
    ensures Run(b, x + y) == Run(Run(b, x), y)
    decreases |x|
  {
    if x == [] {
      assert x + y == y;
    } else {
      assert (x + y)[1..] == x[1..] + y;
      RunAppend(Apply(b, x[0]), x[1..], y);
    }
  }

  lemma {:induction false} PublishedAppend<T>(x: seq<Op<T>>, y: seq<Op<T>>)
    ensures Published(x + y) == Published(x) + Published(y)
  {
    if x == [] {
      assert x + y == y;
    } else {
      assert (x + y)[1..] == x[1..] + y && (x + y)[0] == x[0];
      PublishedAppend(x[1..], y);
      var head := if x[0].Publish? then [x[0].item] else [];
      var a, b := Published(x[1..]), Published(y);
      assert Published(x) == head + a && Published(x + y) == head + (a + b);
      hide *;
      assert head + (a + b) == head + a + b;
    }
  }

  lemma {:induction false} OpenGetsAll<T>(b: State<T>, ops: seq<Op<T>>, id: nat)
    requires 0 < id <= |b.streams| && b.streams[id - 1].open
    requires forall k :: 0 <= k < |ops| ==> !Ends(ops[k], id)
    ensures |Run(b, ops).streams| >= |b.streams|
    ensures Run(b, ops).streams[id - 1] == Stream(b.streams[id - 1].log + Published(ops), true)
    decreases |ops|
  {
    if ops != [] {
      assert !Ends(ops[0], id);
      var next := Apply(b, ops[0]);
      var log := b.streams[id - 1].log;
      assert next.streams[id - 1] == Stream(if ops[0].Publish? then log + [ops[0].item] else log, true);
      OpenGetsAll(next, ops[1..], id);
      if ops[0].Publish? {
        assert (log + [ops[0].item]) + Published(ops[1..]) == log + ([ops[0].item] + Published(ops[1..]));
      } else {
        assert [] + Published(ops[1..]) == Published(ops[1..]);
      }
    }
  }

  lemma {:induction false} ClosedGetsNothing<T>(b: State<T>, ops: seq<Op<T>>, id: nat)
    requires 0 < id <= |b.streams| && !b.streams[id - 1].open
    ensures |Run(b, ops).streams| >= |b.streams|
    ensures Run(b, ops).streams[id - 1] == b.streams[id - 1]
    decreases |ops|
  {
    if ops != [] {
      ClosedGetsNothing(Apply(b, ops[0]), ops[1..], id);
    }
  }

  /** A shutdown closes every stream, and after it nobody can subscribe, whatever happens. */
  lemma {:induction false} ShutdownIsForGood<T>(b: State<T>, ops: seq<Op<T>>)
    ensures var r := Run(Apply(b, Shutdown), ops);
            && r.isShutdown && |r.streams| == |b.streams|
            && forall i :: 0 <= i < |b.streams| ==> r.streams[i] == Stream(b.streams[i].log, false)
  {
    StaysShutDown(Apply(b, Shutdown), ops);
  }

  lemma {:induction false} StaysShutDown<T>(b: State<T>, ops: seq<Op<T>>)
    requires b.isShutdown && forall i :: 0 <= i < |b.streams| ==> !b.streams[i].open
    ensures Run(b, ops) == b
    decreases |ops|
  {
    if ops != [] {
      var next := Apply(b, ops[0]);
      assert |next.streams| == |b.streams|;
      assert forall i :: 0 <= i < |b.streams| ==> next.streams[i] == b.streams[i];
      assert next.streams == b.streams;
      StaysShutDown(next, ops[1..]);
    }
  }

  /** Until then everyone gets a new stream, with nothing in it, behind those there are. */
  lemma JoiningIs<T>(b: State<T>, i: nat)
    requires !b.isShutdown && i < |b.streams|
    ensures var r := Apply(b, Subscribe);
            && !r.isShutdown && |r.streams| == |b.streams| + 1
            && r.streams[|b.streams|] == Stream([], true) && r.streams[i] == b.streams[i]
  {
  }

  /** A subscriber gets exactly what is published between its subscription and its end, and keeps
      it whatever happens later. */
  lemma SubscriberSeesItsLifetime<T>(before: seq<Op<T>>, during: seq<Op<T>>, end: Op<T>, after: seq<Op<T>>)
    requires !Run(Start(), before).isShutdown
    requires var id := |Run(Start<T>(), before).streams| + 1;
             Ends(end, id) && forall k :: 0 <= k < |during| ==> !Ends(during[k], id)
    ensures var id := |Run(Start<T>(), before).streams| + 1;
            var now := Run(Start(), before + [Subscribe] + during);
            var later := Run(Start(), before + [Subscribe] + during + [end] + after);
            && id <= |now.streams| && now.streams[id - 1] == Stream(Published(during), true)
            && id <= |later.streams| && later.streams[id - 1] == Stream(Published(during), false)
  {
    var b := Run(Start<T>(), before);
    var id := |b.streams| + 1;
    var joined := Apply(b, Subscribe);
    RunAppend(Start(), before, [Subscribe]);
    var join: seq<Op<T>> := [Subscribe];
    assert join[1..] == [];
    assert Run(b, join) == Run(joined, []) == joined;
    RunAppend(Start(), before + [Subscribe], during);
    OpenGetsAll(joined, during, id);
    var now := Run(joined, during);
    RunAppend(Start(), before + [Subscribe] + during, [end]);
    assert [end][1..] == [];
    assert Run(now, [end]) == Run(Apply(now, end), []) == Apply(now, end);
    RunAppend(Start(), before + [Subscribe] + during + [end], after);
    ClosedGetsNothing(Apply(now, end), after, id);
  }

  // -- The broker object -----------------------------------------------------

  predicate Open<T>(streams: seq<Stream<T>>, id: nat) {
    0 < id <= |streams| && streams[id - 1].open
  }

  /** The subscribers are the open streams, in order of their numbers. */
  ghost predicate Indexed<T>(streams: seq<Stream<T>>, subscribers: seq<nat>) {
    && (forall k :: 0 <= k < |subscribers| ==> Open(streams, subscribers[k]))
    && (forall j, k :: 0 <= j < k < |subscribers| ==> subscribers[j] < subscribers[k])
    && (forall id :: Open(streams, id) ==> id in subscribers)
  }

  lemma IndexedOneMore<T>(streams: seq<Stream<T>>, subscribers: seq<nat>)
    requires Indexed(streams, subscribers)
    ensures Indexed(streams + [Stream([], true)], subscribers + [|streams| + 1])
  {
    var more := subscribers + [|streams| + 1];
    assert more[|subscribers|] == |streams| + 1;
    forall id: nat | Open(streams + [Stream([], true)], id) ensures id in more {
      if id <= |streams| {
        assert Open(streams, id);
      }
    }
  }

  lemma IndexedOneLess<T>(streams: seq<Stream<T>>, subscribers: seq<nat>, k: nat)
    requires Indexed(streams, subscribers) && k < |subscribers|
    ensures var id := subscribers[k];
            Open(streams, id) &&
            Indexed(streams[id - 1 := Closed(streams[id - 1])], subscribers[..k] + subscribers[k + 1..])
  {
    var id := subscribers[k];
    var less := subscribers[..k] + subscribers[k + 1..];
    assert forall j :: 0 <= j < |less| ==> less[j] == subscribers[if j < k then j else j + 1];
    forall i: nat | Open(streams[id - 1 := Closed(streams[id - 1])], i) ensures i in less {
      assert i != id && Open(streams, i);
      var j :| 0 <= j < |subscribers| && subscribers[j] == i;
      assert less[if j < k then j else j - 1] == i;
    }
  }

  lemma NotSubscribed<T>(streams: seq<Stream<T>>, subscribers: seq<nat>, id: nat)
    requires Indexed(streams, subscribers) && id !in subscribers && 0 < id <= |streams|
    ensures streams == streams[id - 1 := Closed(streams[id - 1])]
  {
    assert !Open(streams, id);
  }

  method PlaceOf(subscribers: seq<nat>, id: nat) returns (k: nat)
    ensures k <= |subscribers| && (id in subscribers <==> k < |subscribers|)
    ensures k < |subscribers| ==> subscribers[k] == id
  {
    k := 0;
    while k < |subscribers| && subscribers[k] != id
      invariant k <= |subscribers|
      invariant forall j :: 0 <= j < k ==> subscribers[j] != id
    {
      k := k + 1;
    }
  }

  lemma IndexedSameOpen<T>(a: seq<Stream<T>>, b: seq<Stream<T>>, subscribers: seq<nat>)
    requires Indexed(a, subscribers) && |a| == |b| && forall i :: 0 <= i < |a| ==> a[i].open == b[i].open
    ensures Indexed(b, subscribers)
  {
    assert forall id :: Open(b, id) <==> Open(a, id);
  }

  method GiveAll<T>(streams: seq<Stream<T>>, subscribers: seq<nat>, item: T) returns (given: seq<Stream<T>>)
    requires Indexed(streams, subscribers)
    ensures |given| == |streams| && forall i :: 0 <= i < |streams| ==> given[i] == Given(streams[i], item)
  {
    given := streams;
    for k := 0 to |subscribers|
      invariant |given| == |streams|
      invariant forall i :: 0 <= i < |streams| ==>
                  given[i] == if i + 1 in subscribers[..k] then Given(streams[i], item) else streams[i]
    {
      var place := subscribers[k] - 1;
      assert subscribers[..k + 1] == subscribers[..k] + [subscribers[k]];
      assert place + 1 !in subscribers[..k];
      given := given[place := Stream(given[place].log + [item], true)];
    }
    assert subscribers[..|subscribers|] == subscribers;
    forall i | 0 <= i < |streams| ensures given[i] == Given(streams[i], item) {
      if streams[i].open {
        assert Open(streams, i + 1);
      }
    }
  }

  class Broker<T> {
    var streams: seq<Stream<T>>
    var subscribers: seq<nat>
    var idCounter: nat
    var isShutdown: bool

    ghost predicate Tidy()
      reads this
    {
      idCounter == |streams| && Indexed(streams, subscribers)
    }

    /** After a shutdown nobody is subscribed. */
    ghost predicate Valid()
      reads this
    {
      Tidy() && (isShutdown ==> subscribers == [])
    }

    ghost function Now(): State<T>
      reads this
    {
      State(streams, isShutdown)
    }

    constructor ()
      ensures Valid() && Now() == Start() && fresh(this)
    {
      streams, subscribers, idCounter, isShutdown := [], [], 0, false;
    }

    /** Returns the number of the new stream, or 0 after a shutdown, where the source throws. */
    method Subscribe() returns (id: nat)
      requires Valid()
      modifies this
      ensures Valid() && Now() == Apply(old(Now()), Op.Subscribe)
      ensures id == (if old(isShutdown) then 0 else |streams|)
    {
      hide Indexed;
      if isShutdown {
        return 0;
      }
      IndexedOneMore(streams, subscribers);
      idCounter := idCounter + 1;
      id := idCounter;
      streams := streams + [Stream([], true)];
      subscribers := subscribers + [id];
    }

    method Publish(item: T)
      requires Valid()
      modifies this
      ensures Valid() && Now() == Apply(old(Now()), Op.Publish(item))
    {
      hide Indexed;
      var given := GiveAll(streams, subscribers, item);
      IndexedSameOpen(streams, given, subscribers);
      streams := given;
      assert streams == Apply(old(Now()), Op.Publish(item)).streams;
    }

    /** Ends a stream; the number of no stream, or of one that has ended, changes nothing. */
    method Unsubscribe(id: nat)
      requires Tidy()
      modifies this
      ensures Tidy() && (old(Valid()) ==> Valid()) && Now() == Apply(old(Now()), Op.Unsubscribe(id))
      ensures |subscribers| == |old(subscribers)| - if id in old(subscribers) then 1 else 0
    {
      hide Indexed;
      var k := PlaceOf(subscribers, id);
      if k < |subscribers| {
        IndexedOneLess(streams, subscribers, k);
        streams := streams[id - 1 := Closed(streams[id - 1])];
        subscribers := subscribers[..k] + subscribers[k + 1..];
      } else if 0 < id <= |streams| {
        NotSubscribed(streams, subscribers, id);
      }
    }

    method Shutdown()
      requires Valid()
      modifies this
      ensures Valid() && isShutdown && Now() == Apply(old(Now()), Op.Shutdown)
    {
      ghost var before := streams;
      if isShutdown {
        AllClosed(before, before);
        return;
      }
      isShutdown := true;
      hide Indexed;
      while subscribers != []
        invariant Tidy() && isShutdown && |streams| == |before|
        invariant forall i :: 0 <= i < |streams| ==> streams[i] == before[i] || streams[i] == Closed(before[i])
        decreases |subscribers|
      {
        Unsubscribe(subscribers[0]);
      }
      AllClosed(before, streams);
    }
  }

  lemma AllClosed<T>(before: seq<Stream<T>>, now: seq<Stream<T>>)
    requires Indexed(now, []) && |now| == |before|
    requires forall i :: 0 <= i < |now| ==> now[i] == before[i] || now[i] == Closed(before[i])
    ensures now == Apply(State(before, false), Op.Shutdown).streams
    ensures Apply(State(before, false), Op.Shutdown) == Apply(State(before, true), Op.Shutdown)
  {
    forall i | 0 <= i < |now| ensures now[i] == Closed(before[i]) {
      assert !Open(now, i + 1);
    }
  }
}
