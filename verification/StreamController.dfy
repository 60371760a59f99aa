/** The controller of one response stream, in front of the broker. */
module StreamController {
  import opened StreamSpec
  import opened PubSub

  function Publishes(l: seq<Event>): seq<Op<Event>> {
    if l == [] then [] else [Publish(l[0])] + Publishes(l[1..])
  }

  lemma {:induction false} PublishesSnoc(l: seq<Event>, e: Event)
    ensures Publishes(l + [e]) == Publishes(l) + [Publish(e)]
  {
    if l == [] {
      assert l + [e] == [e] && [e][1..] == [];
    } else {
      assert (l + [e])[1..] == l[1..] + [e];
      PublishesSnoc(l[1..], e);
    }
  }

  lemma PublishedOneMore(b: State<Event>, l: seq<Event>, e: Event)
    ensures Apply(Run(b, Publishes(l)), Publish(e)) == Run(b, Publishes(l + [e]))
  {
    PublishesSnoc(l, e);
    RunAppend(b, Publishes(l), [Publish(e)]);
    var last: seq<Op<Event>> := [Publish(e)];
    assert last[1..] == [];
    assert Run(Run(b, Publishes(l)), last) == Run(Apply(Run(b, Publishes(l)), Publish(e)), []);
  }

  class StreamController {
    const broker: Broker<Event>
    var buffer: seq<Event>
    var ticking: bool
    ghost var history: seq<Step>

    /** Held back is exactly what the history says, and the timer runs until the first close. */
    ghost predicate Valid()
      reads this, broker
    {
      && broker.Valid() && buffer == Trailing(history)
      && Timed(history) && (ticking <==> !IsClosed(history))
    }

    constructor (broker: Broker<Event>)
      requires broker.Valid()
      ensures Valid() && history == [] && ticking && this.broker == broker
    {
      this.broker := broker;
      buffer, ticking, history := [], true, [];
    }

    /** Sends the latest thought held back, if any, and drops the others. */
    method FlushBuffer()
      requires broker.Valid()
      modifies this`buffer, broker
      ensures broker.Valid() && buffer == []
      ensures broker.Now() == Run(old(broker.Now()), Publishes(Released(old(buffer), Tick)))
    {
      hide Apply;
      ghost var start := broker.Now();
      if |buffer| == 0 {
        return;
      }
      var latest := buffer[|buffer| - 1];
      broker.Publish(latest);
      PublishedOneMore(start, [], latest);
      assert [] + [latest] == [latest] == Released(old(buffer), Tick);
      buffer := [];
    }

    /** A thought is held back; any other event goes out after what is held back. */
    method EmitEvent(event: Event)
      requires Valid()
      modifies this, broker
      ensures Valid() && ticking == old(ticking) && history == old(history) + [Emit(event)]
      ensures broker.Now() == Run(old(broker.Now()), Publishes(Released(old(buffer), Emit(event))))
    {
      hide Apply, Timed, IsClosed;
      ghost var start := broker.Now();
      TrailingSnoc(history, Emit(event));
      TimedSnoc(history, Emit(event));
      history := history + [Emit(event)];
      if event.kind.Thought? {
        buffer := buffer + [event];
        assert Released(old(buffer), Emit(event)) == [];
        return;
      }
      ghost var sent: seq<Event> := [];
      if |buffer| > 0 {
        sent := [buffer[|buffer| - 1]];
        FlushBuffer();
        assert Released(old(buffer), Tick) == sent;
      }
      broker.Publish(event);
      PublishedOneMore(start, sent, event);
      assert sent + [event] == Released(old(buffer), Emit(event));
    }

    /** The timer's flush, while it runs. */
    method TimerFires()
      requires Valid() && ticking
      modifies this, broker
      ensures Valid() && ticking && history == old(history) + [Tick]
      ensures broker.Now() == Run(old(broker.Now()), Publishes(Released(old(buffer), Tick)))
    {
      hide Apply, Timed, IsClosed;
      TrailingSnoc(history, Tick);
      TimedSnoc(history, Tick);
      FlushBuffer();
      history := history + [Tick];
    }

    /** Stops the timer after a last flush, so that nothing is held back. */
    method CloseStream()
      requires Valid()
      modifies this, broker
      ensures Valid() && !ticking && buffer == [] && history == old(history) + [Close]
      ensures broker.Now() == Run(old(broker.Now()), Publishes(Released(old(buffer), Close)))
    {
      hide Apply, Timed, IsClosed;
      TrailingSnoc(history, Close);
      TimedSnoc(history, Close);
      ticking := false;
      FlushBuffer();
      assert Released(old(buffer), Tick) == Released(old(buffer), Close);
      history := history + [Close];
    }

    /** The completion event follows everything held back, and the stream is closed. */
    method CompleteStream(summary: string)
      requires Valid()
      modifies this, broker
      ensures Valid() && !ticking && buffer == []
      ensures history == old(history) + [Emit(Event(Complete, summary))] + [Close]
      ensures broker.Now() == Run(old(broker.Now()), Publishes(Released(old(buffer), Emit(Event(Complete, summary)))))
    {
      TrailingSnoc(history, Emit(Event(Complete, summary)));
      EmitEvent(Event(Complete, summary));
      ghost var sent := broker.Now();
      assert Publishes(Released(buffer, Close)) == [];
      CloseStream();
      assert Run(sent, []) == sent;
    }

    /** An error closes the stream unless it is recoverable. */
    method EmitError(message: string, recoverable: bool)
      requires Valid()
      modifies this, broker
      ensures Valid() && ticking == (old(ticking) && recoverable) && buffer == []
      ensures history == old(history) + [Emit(Event(Error, message))] + if recoverable then [] else [Close]
      ensures broker.Now() == Run(old(broker.Now()), Publishes(Released(old(buffer), Emit(Event(Error, message)))))
    {
      TrailingSnoc(history, Emit(Event(Error, message)));
      EmitEvent(Event(Error, message));
      if !recoverable {
        ghost var sent := broker.Now();
        assert Publishes(Released(buffer, Close)) == [];
        CloseStream();
        assert Run(sent, []) == sent;
      }
    }
  }

  lemma TimedSnoc(h: seq<Step>, s: Step)
    requires Timed(h)
    ensures Timed(h + [s]) <==> !(s.Tick? && IsClosed(h))
    ensures IsClosed(h + [s]) <==> IsClosed(h) || s.Close?
  {
    var more := h + [s];
    assert more[|h|] == s && forall k :: 0 <= k < |h| ==> more[k] == h[k];
    if IsClosed(h) {
      var j :| 0 <= j < |h| && h[j].Close?;
      assert more[j].Close?;
    }
  }
}
