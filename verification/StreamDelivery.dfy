/** The stream in front of the broker: what a subscriber sees of one response. */
module StreamDelivery {
  import opened Sequences
  import opened StreamSpec
  import opened PubSub

  /** An event of this stream, or what someone else publishes. */
  datatype Item = Ours(event: Event) | Theirs(what: string)
  datatype Act = Do(step: Step) | Foreign(what: string) | Join | Leave(id: nat) | Down

  function StepOf(a: Act): seq<Step> {
    if a.Do? then [a.step] else []
  }

  function Steps(acts: seq<Act>): seq<Step> {
    if acts == [] then [] else StepOf(acts[0]) + Steps(acts[1..])
  }

  function PublishAll(l: seq<Event>): seq<Op<Item>> {
    if l == [] then [] else [Publish(Ours(l[0]))] + PublishAll(l[1..])
  }

  /** What reaches the broker when the stream already has the history `h`. */
  function OpsOf(h: seq<Step>, a: Act): seq<Op<Item>> {
    match a
    case Do(s) => PublishAll(Released(Trailing(h), s))
    case Foreign(what) => [Publish(Theirs(what))]
    case Join => [Subscribe]
    case Leave(id) => [Unsubscribe(id)]
    case Down => [Shutdown]
  }

  function Ops(h: seq<Step>, acts: seq<Act>): seq<Op<Item>>
    decreases |acts|
  {
    if acts == [] then [] else OpsOf(h, acts[0]) + Ops(h + StepOf(acts[0]), acts[1..])
  }

  function OursOf(items: seq<Item>): seq<Event> {
    if items == [] then [] else (if items[0].Ours? then [items[0].event] else []) + OursOf(items[1..])
  }

  lemma {:induction false} OursAppend(a: seq<Item>, b: seq<Item>)
    ensures OursOf(a + b) == OursOf(a) + OursOf(b)
  {
    if a == [] {
      assert a + b == b;
    } else {
      assert (a + b)[1..] == a[1..] + b;
      OursAppend(a[1..], b);
      var head: seq<Event> := if a[0].Ours? then [a[0].event] else [];
      assert OursOf(a) == head + OursOf(a[1..]);
      assert OursOf(a + b) == head + (OursOf(a[1..]) + OursOf(b));
    }
  }

  lemma {:induction false} StepsAppend(a: seq<Act>, b: seq<Act>)
    ensures Steps(a + b) == Steps(a) + Steps(b)
  {
    if a == [] {
      assert a + b == b;
    } else {
      assert (a + b)[1..] == a[1..] + b;
      StepsAppend(a[1..], b);
      assert Steps(a + b) == StepOf(a[0]) + (Steps(a[1..]) + Steps(b));
    }
  }

  lemma {:induction false} PublishAllPublishes(l: seq<Event>)
    ensures OursOf(Published(PublishAll(l))) == l
    ensures forall k :: 0 <= k < |PublishAll(l)| ==> PublishAll(l)[k].Publish?
  {
    if l != [] {
      PublishAllPublishes(l[1..]);
      var head: seq<Op<Item>> := [Publish(Ours(l[0]))];
      assert (head + PublishAll(l[1..]))[1..] == PublishAll(l[1..]);
      assert ([Ours(l[0])] + Published(PublishAll(l[1..])))[1..] == Published(PublishAll(l[1..]));
    }
  }

  lemma Unfold(h: seq<Step>, acts: seq<Act>)
    requires acts != []
    ensures var g := h + StepOf(acts[0]);
            Ops(h, acts) == OpsOf(h, acts[0]) + Ops(g, acts[1..]) && g + Steps(acts[1..]) == h + Steps(acts)
  {
    hide OpsOf, StepOf;
    var g := h + StepOf(acts[0]);
    assert Ops(h, acts) == OpsOf(h, acts[0]) + Ops(g, acts[1..]);
    assert Steps(acts) == StepOf(acts[0]) + Steps(acts[1..]);
    hide *;
    Regroup(h, StepOf(acts[0]), Steps(acts[1..]));
  }

  lemma {:induction false} OpsAppend(h: seq<Step>, a: seq<Act>, b: seq<Act>)
    ensures Ops(h, a + b) == Ops(h, a) + Ops(h + Steps(a), b)
    decreases |a|
  {
    if a == [] {
      assert a + b == b && h + Steps(a) == h;
    } else {
      var g := h + StepOf(a[0]);
      assert (a + b)[1..] == a[1..] + b && (a + b)[0] == a[0];
      OpsAppend(g, a[1..], b);
      Unfold(h, a);
      Unfold(h, a + b);
      hide *;
      Regroup(OpsOf(h, a[0]), Ops(g, a[1..]), Ops(h + Steps(a), b));
    }
  }

  lemma OneActIsSent(h: seq<Step>, a: Act)
    ensures SentEvents(h) + OursOf(Published(OpsOf(h, a))) == SentEvents(h + StepOf(a))
  {
    if a.Do? {
      SentSnoc(h, a.step);
      PublishAllPublishes(Released(Trailing(h), a.step));
    } else {
      assert h + [] == h;
      assert OpsOf(h, a)[1..] == [];
      assert Published(OpsOf(h, a)) == if a.Foreign? then [Theirs(a.what)] else [];
      if a.Foreign? {
        assert [Theirs(a.what)][1..] == [];
      }
    }
  }

  /** What the stream publishes is what its history sends. */
  lemma {:induction false} PublishedIsSent(h: seq<Step>, acts: seq<Act>)
    ensures SentEvents(h) + OursOf(Published(Ops(h, acts))) == SentEvents(h + Steps(acts))
    decreases |acts|
  {
    if acts == [] {
      assert h + Steps(acts) == h;
    } else {
      var g := h + StepOf(acts[0]);
      var first, rest := OpsOf(h, acts[0]), Ops(g, acts[1..]);
      OneActIsSent(h, acts[0]);
      PublishedIsSent(g, acts[1..]);
      Unfold(h, acts);
      hide *;
      PublishedAppend(first, rest);
      OursAppend(Published(first), Published(rest));
      Regroup(SentEvents(h), OursOf(Published(first)), OursOf(Published(rest)));
    }
  }

  predicate EndsIt(a: Act, id: nat) {
    a.Down? || (a.Leave? && a.id == id)
  }

  lemma {:induction false} NoEndInOps(h: seq<Step>, acts: seq<Act>, id: nat)
    requires forall k :: 0 <= k < |acts| ==> !EndsIt(acts[k], id)
    ensures forall k :: 0 <= k < |Ops(h, acts)| ==> !Ends(Ops(h, acts)[k], id)
    decreases |acts|
  {
    if acts != [] {
      assert !EndsIt(acts[0], id);
      if acts[0].Do? {
        PublishAllPublishes(Released(Trailing(h), acts[0].step));
      }
      NoEndInOps(h + StepOf(acts[0]), acts[1..], id);
    }
  }

  /** Whoever joins sees, from then on until it leaves or the broker shuts down, exactly what the
      stream sends: with what was sent before, all that the whole history sends, however emits,
      timer flushes and other publishers interleave. */
  lemma SubscriberFollowsTheStream(before: seq<Act>, during: seq<Act>, end: Act, after: seq<Act>)
    requires var b := Run(Start<Item>(), Ops([], before));
             && !b.isShutdown && EndsIt(end, |b.streams| + 1)
             && forall k :: 0 <= k < |during| ==> !EndsIt(during[k], |b.streams| + 1)
    ensures var id := |Run(Start<Item>(), Ops([], before)).streams| + 1;
            var later := Run(Start(), Ops([], before + [Join] + during + [end] + after));
            && id <= |later.streams| && !later.streams[id - 1].open
            && SentEvents(Steps(before)) + OursOf(later.streams[id - 1].log) == SentEvents(Steps(before + during))
  {
    var id := |Run(Start<Item>(), Ops([], before)).streams| + 1;
    var h := Steps(before);
    assert [] + h == h;
    JoinOps(before, during, end, after);
    var ending: Op<Item> := if end.Down? then Shutdown else Unsubscribe(end.id);
    NoEndInOps(h, during, id);
    SubscriberSeesItsLifetime(Ops([], before), Ops(h, during), ending, Ops(h + Steps(during), after));
    PublishedIsSent(h, during);
    StepsAppend(before, during);
  }

  lemma JoinOps(before: seq<Act>, during: seq<Act>, end: Act, after: seq<Act>)
    requires end.Down? || end.Leave?
    ensures var h := Steps(before);
            var ending: Op<Item> := if end.Down? then Shutdown else Unsubscribe(end.id);
            Ops([], before + [Join] + during + [end] + after) ==
            Ops([], before) + [Subscribe] + Ops(h, during) + [ending] + Ops(h + Steps(during), after)
  {
    hide Ops, Steps;
    var h := Steps(before);
    var ending: Op<Item> := if end.Down? then Shutdown else Unsubscribe(end.id);
    assert [] + h == h && h + [] == h && h + Steps(during) + [] == h + Steps(during);
    StepThenRest([], before, h, Ops([], before), [Join] + (during + ([end] + after)));
    OneOp(h, Join);
    StepThenRest(h, [Join], h, [Subscribe], during + ([end] + after));
    OpsAppend(h, during, [end] + after);
    OneOp(h + Steps(during), end);
    StepThenRest(h + Steps(during), [end], h + Steps(during), [ending], after);
    assert before + [Join] + during + [end] + after == before + ([Join] + (during + ([end] + after)));
    RegroupFive(Ops([], before), [Subscribe], Ops(h, during), [ending], Ops(h + Steps(during), after));
  }

  lemma StepThenRest(h: seq<Step>, a: seq<Act>, g: seq<Step>, ops: seq<Op<Item>>, rest: seq<Act>)
    requires g == h + Steps(a) && ops == Ops(h, a)
    ensures Ops(h, a + rest) == ops + Ops(g, rest)
  {
    OpsAppend(h, a, rest);
  }

  lemma OneOp(h: seq<Step>, a: Act)
    requires a.Join? || a.Down? || a.Leave?
    ensures Steps([a]) == []
    ensures Ops(h, [a]) == [if a.Join? then Subscribe else if a.Down? then Shutdown else Unsubscribe(a.id)]
  {
    assert [a][1..] == [];
    assert Ops(h + StepOf(a), []) == [];
  }
}
