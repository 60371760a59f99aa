/** The guest's side of remote inference as it is programmed: one mutable stream object per
    request, fed by the connection and drained by its generator. */
module GuestClient {
  import opened Options
  import opened Inference

  class PendingStream {
    var queue: seq<Ev>
    var finished: bool
    var failure: Option<string>
    var wake: bool
    var gen: Gen
    ghost var pushed: seq<Ev>
    ghost var yielded: seq<Ev>

    /** The stream as the protocol sees it; being registered is the client's business. */
    ghost function State(registered: bool): Stream
      reads this
    {
      Stream(queue, finished, failure, wake, gen, registered, pushed, yielded)
    }

    constructor ()
      ensures State(true) == FRESH
    {
      queue, finished, failure, wake, gen := [], false, None, false, Running;
      pushed, yielded := [], [];
    }

    method WakeUp()
      modifies this`wake, this`gen
      ensures State(true) == Notify(old(State(true)))
    {
      if wake {
        gen := Running;
      }
      wake := false;
    }

    method PushEvent(ev: Ev)
      modifies this
      ensures State(true) == Push(old(State(true)), ev)
    {
      queue := queue + [ev];
      pushed := pushed + [ev];
      WakeUp();
    }

    method MarkDone()
      modifies this
      ensures State(true) == Done(old(State(true)))
    {
      finished := true;
      WakeUp();
    }

    method MarkFailed(error: string)
      modifies this
      ensures State(true) == Fail(old(State(true)), error)
    {
      failure := Some(error);
      finished := true;
      WakeUp();
    }

    /** The generator's loop from one suspension to the next: it yields, ends or goes to sleep. */
    method Next() returns (event: Option<Ev>, live: bool)
      requires gen.Running? && !wake
      modifies this
      ensures State(live) == Advance(old(State(true)))
      ensures event == if old(queue) != [] then Some(old(queue)[0]) else None
    {
      if |queue| > 0 {
        event, live := Some(queue[0]), true;
        yielded := yielded + [queue[0]];
        queue := queue[1..];
        return;
      }
      if failure.Some? && failure.value != "" {
        gen := Threw(failure.value);
        return None, false;
      }
      if finished {
        gen := Returned;
        return None, false;
      }
      wake := true;
      gen := Parked;
      return None, true;
    }
  }

  class RelayGuestClient {
    var streams: map<Id, PendingStream>

    /** Each request has a stream object of its own. */
    ghost predicate Valid()
      reads this
    {
      forall i, j :: i in streams && j in streams && streams[i] == streams[j] ==> i == j
    }

    constructor ()
      ensures Valid() && streams == map[]
    {
      streams := map[];
    }

    method Open(id: Id) returns (s: PendingStream)
      requires Valid() && id !in streams
      modifies this
      ensures Valid() && fresh(s) && streams == old(streams)[id := s] && s.State(true) == FRESH
    {
      s := new PendingStream();
      streams := streams[id := s];
    }

    /** The generator's `finally` block. */
    method Forget(id: Id)
      requires Valid()
      modifies this
      ensures Valid() && streams == old(streams) - {id}
    {
      streams := streams - {id};
    }

    /** `handleMessage`: the message reaches the stream it names and no other object. */
    method HandleMessage(w: Wire)
      requires Valid()
      modifies if w.id in streams then {streams[w.id]} else {}
      ensures w.id in streams ==> streams[w.id].State(true) == Receive(old(streams[w.id].State(true)), w)
    {
      if w.id in streams {
        var stream := streams[w.id];
        match w {
          case EventMsg(_, ev) => stream.PushEvent(ev);
          case DoneMsg(_) => stream.MarkDone();
          case ErrorMsg(_, error) => stream.MarkFailed(error);
        }
      }
    }

    /** The close handler: every registered stream fails, and none stays registered. */
    method ConnectionClosed()
      requires Valid()
      modifies this, streams.Values
      ensures Valid() && streams == map[]
      ensures forall id :: id in old(streams) ==>
                old(streams)[id].State(true) == Fail(old(streams[id].State(true)), HOST_CLOSED)
    {
      hide Fail;
      var all := streams;
      var todo := streams.Keys;
      while todo != {}
        invariant todo <= all.Keys && streams == all == old(streams)
        invariant forall id :: id in all && id !in todo ==>
                    all[id].State(true) == Fail(old(all[id].State(true)), HOST_CLOSED)
        invariant forall id :: id in todo ==> unchanged(all[id])
        decreases todo
      {
        var id :| id in todo;
        todo := todo - {id};
        all[id].MarkFailed(HOST_CLOSED);
      }
      streams := map[];
    }
  }
}
