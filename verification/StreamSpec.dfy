/** The event stream of one response: thoughts are held back, and of a run of them only the last
    is sent. */
module StreamSpec {
  import opened Sequences

  datatype Kind = Thought | Token | ToolCall | ToolResult | FileChange | Complete | Error
  datatype Event = Event(kind: Kind, payload: string)

  /** What happens to a stream: an event is emitted, or the timer or a close flushes it. */
  datatype Step = Emit(event: Event) | Tick | Close

  predicate Thinks(s: Step) {
    s.Emit? && s.event.kind.Thought?
  }

  function EmittedBy(s: Step): seq<Event> {
    if s.Emit? then [s.event] else []
  }

  function Emitted(h: seq<Step>): seq<Event> {
    if h == [] then [] else EmittedBy(h[0]) + Emitted(h[1..])
  }

  /** An emitted event is sent unless it is a thought that another thought, or nothing at all, comes
      after. */
  predicate Sent(h: seq<Step>, i: nat)
    requires i < |h|
  {
    h[i].Emit? && (Thinks(h[i]) ==> i + 1 < |h| && !Thinks(h[i + 1]))
  }

  /** The events sent over a history, in order. */
  function SentEvents(h: seq<Step>): seq<Event> {
    if h == [] then [] else
      (if Sent(h, 0) then [h[0].event] else []) + SentEvents(h[1..])
  }

  /** The thoughts a history ends with. */
  function Trailing(h: seq<Step>): seq<Event> {
    if h == [] || !Thinks(h[|h| - 1]) then [] else Trailing(h[..|h| - 1]) + [h[|h| - 1].event]
  }

  /** What one step sends when `buffer` is held back. */
  function Released(buffer: seq<Event>, s: Step): seq<Event> {
    (if !Thinks(s) && buffer != [] then [buffer[|buffer| - 1]] else []) +
    (if s.Emit? && !Thinks(s) then [s.event] else [])
  }

  /** A thought is held back if and only if the last step was a thought. */
  lemma {:induction false} HeldBackIff(h: seq<Step>)
    ensures Trailing(h) != [] <==> h != [] && Thinks(h[|h| - 1])
    ensures Trailing(h) != [] ==> Trailing(h)[|Trailing(h)| - 1] == h[|h| - 1].event
  {
  }

  lemma SentOne(s: Step)
    ensures SentEvents([s]) == Released([], s)
  {
    assert [s][1..] == [];
    assert SentEvents([s]) == (if Sent([s], 0) then [s.event] else []) + SentEvents([]);
  }

  lemma SentTwo(x: Step, s: Step)
    ensures SentEvents([x] + [s]) == SentEvents([x]) + Released(Trailing([x]), s)
  {
    SentOne(s);
    SentOne(x);
    HeldBackIff([x]);
    assert ([x] + [s])[1..] == [s];
    hide Trailing;
    assert Trailing([x]) == [] || |Trailing([x])| > 0;
  }

  /** One more step sends the last thought held back, if the step is not a thought itself, and then
      the event of the step. */
  lemma {:induction false} SentSnoc(h: seq<Step>, s: Step)
    ensures SentEvents(h + [s]) == SentEvents(h) + Released(Trailing(h), s)
  {
    if h == [] {
      SentOne(s);
      assert [] + [s] == [s];
    } else if |h| == 1 {
      SentTwo(h[0], s);
      assert h == [h[0]];
    } else {
      var t := h[1..];
      assert (h + [s])[1..] == t + [s];
      SentSnoc(t, s);
      HeldBackIff(h);
      HeldBackIff(t);
      hide Trailing, Thinks;
      assert t[|t| - 1] == h[|h| - 1];
      assert (h + [s])[1] == h[1];
      assert Sent(h + [s], 0) == Sent(h, 0);
      assert Released(Trailing(t), s) == Released(Trailing(h), s);
    }
  }

  lemma TrailingSnoc(h: seq<Step>, s: Step)
    ensures Trailing(h + [s]) == if Thinks(s) then Trailing(h) + [s.event] else []
  {
    assert (h + [s])[..|h|] == h;
  }

  lemma {:induction false} SentAppend(h: seq<Step>, k: seq<Step>)
    ensures SentEvents(h) <= SentEvents(h + k)
    decreases |k|
  {
    if k == [] {
      assert h + k == h;
    } else {
      SentAppend(h, k[..|k| - 1]);
      SentSnoc(h + k[..|k| - 1], k[|k| - 1]);
      assert h + k == (h + k[..|k| - 1]) + [k[|k| - 1]];
    }
  }

  // -- What that means for the receiver --------------------------------------

  function Actions(l: seq<Event>): seq<Event> {
    if l == [] then [] else (if l[0].kind.Thought? then [] else [l[0]]) + Actions(l[1..])
  }

  lemma ActionsOfOne(e: Event)
    ensures Actions([e]) == if e.kind == Thought then [] else [e]
  {
    assert [e][1..] == [];
  }

  lemma {:induction false} ActionsAppend(a: seq<Event>, b: seq<Event>)
    ensures Actions(a + b) == Actions(a) + Actions(b)
  {
    if a == [] {
      assert a + b == b;
    } else {
      assert (a + b)[1..] == a[1..] + b;
      ActionsAppend(a[1..], b);
    }
  }

  /** Everything that is not a thought is sent, once and in order. */
  lemma {:induction false} NoActionIsLost(h: seq<Step>)
    ensures Actions(SentEvents(h)) == Actions(Emitted(h))
  {
    if h != [] {
      NoActionIsLost(h[1..]);
      ActionsAppend(EmittedBy(h[0]), Emitted(h[1..]));
      ActionsAppend(if Sent(h, 0) then [h[0].event] else [], SentEvents(h[1..]));
      if h[0].Emit? {
        assert [h[0].event][1..] == [];
      }
    }
  }

  predicate IsSubsequence(a: seq<Event>, b: seq<Event>) {
    a == [] || (b != [] && (if a[0] == b[0] then IsSubsequence(a[1..], b[1..]) else IsSubsequence(a, b[1..])))
  }

  lemma {:induction false} SubsequenceGrows(a: seq<Event>, b: seq<Event>, x: Event)
    requires IsSubsequence(a, b)
    ensures IsSubsequence(a, [x] + b)
    ensures IsSubsequence([x] + a, [x] + b)
    decreases |b|, 1
  {
    assert ([x] + b)[1..] == b && ([x] + a)[1..] == a;
    if a != [] && a[0] == x {
      SubsequenceDrops(a, b);
    }
  }

  lemma {:induction false} SubsequenceDrops(a: seq<Event>, b: seq<Event>)
    requires a != [] && IsSubsequence(a, b)
    ensures IsSubsequence(a[1..], b)
    decreases |b|, 0
  {
    if a[0] == b[0] {
      var c := b[1..];
      assert IsSubsequence(a[1..], c);
      if a[1..] != [] {
        assert [b[0]] + c == b;
        SubsequenceGrows(a[1..], c, b[0]);
      }
    } else {
      SubsequenceDrops(a, b[1..]);
      assert [b[0]] + b[1..] == b;
      SubsequenceGrows(a[1..], b[1..], b[0]);
    }
  }

  /** Nothing is sent that was not emitted, and nothing twice or out of order. */
  lemma {:induction false} SentInOrder(h: seq<Step>)
    ensures IsSubsequence(SentEvents(h), Emitted(h))
  {
    if h != [] {
      SentInOrder(h[1..]);
      if h[0].Emit? {
        SubsequenceGrows(SentEvents(h[1..]), Emitted(h[1..]), h[0].event);
        if !Sent(h, 0) {
          assert [] + SentEvents(h[1..]) == SentEvents(h[1..]);
        }
      } else {
        assert [] + Emitted(h[1..]) == Emitted(h[1..]) && [] + SentEvents(h[1..]) == SentEvents(h[1..]);
      }
    }
  }

  ghost predicate AllThoughts(window: seq<Step>) {
    forall k :: 0 <= k < |window| ==> Thinks(window[k])
  }

  lemma {:induction false} ThoughtsSendNothing(h: seq<Step>, window: seq<Step>)
    requires AllThoughts(window)
    ensures SentEvents(h + window) == SentEvents(h)
    decreases |window|
  {
    if window == [] {
      assert h + window == h;
    } else {
      var init, last := window[..|window| - 1], window[|window| - 1];
      ThoughtsSendNothing(h, init);
      SentSnoc(h + init, last);
      assert h + window == h + init + [last];
    }
  }

  lemma ReleasedByOther(a: seq<Event>, last: Event, s: Step)
    requires a != [] && a[|a| - 1] == last && !Thinks(s)
    ensures Released(a, s) == [last] + EmittedBy(s)
  {
  }

  /** Of the thoughts between two other steps only the last is sent, wherever they come. */
  lemma OneThoughtPerWindow(h: seq<Step>, window: seq<Step>, s: Step)
    requires window != [] && AllThoughts(window) && !Thinks(s)
    ensures Thinks(window[|window| - 1])
    ensures SentEvents(h + window + [s]) == SentEvents(h) + [window[|window| - 1].event] + EmittedBy(s)
  {
    hide SentEvents, Trailing, Released;
    var last := window[|window| - 1].event;
    ThoughtsSendNothing(h, window);
    SentSnoc(h + window, s);
    HeldBackIff(h + window);
    assert (h + window)[|h + window| - 1] == window[|window| - 1];
    ReleasedByOther(Trailing(h + window), last, s);
    Regroup(SentEvents(h), [last], EmittedBy(s));
  }

  // -- After a close ---------------------------------------------------------

  ghost predicate IsClosed(h: seq<Step>) {
    exists j :: 0 <= j < |h| && h[j].Close?
  }

  /** The timer is gone after a close. */
  ghost predicate Timed(h: seq<Step>) {
    forall j, k :: 0 <= j < k < |h| && h[j].Close? ==> !h[k].Tick?
  }

  lemma {:induction false} TrailingStops(a: seq<Step>, b: seq<Step>)
    requires b != [] && !Thinks(b[0])
    ensures Trailing(a + b) == Trailing(b)
    decreases |b|
  {
    var init := b[..|b| - 1];
    assert (a + b)[..|a + b| - 1] == a + init;
    if init != [] {
      TrailingStops(a, init);
    }
  }

  /** What is sent from a step on that is not a thought does not depend on what came before, but
      for the thought it releases. */
  lemma {:induction false} SentFrom(a: seq<Step>, b: seq<Step>)
    requires b != [] && !Thinks(b[0])
    ensures SentEvents(a + b) == SentEvents(a) + Released(Trailing(a), Tick) + SentEvents(b)
    decreases |b|
  {
    hide SentEvents, Trailing, Released;
    var init, last := b[..|b| - 1], b[|b| - 1];
    assert a + b == a + init + [last] && b == init + [last];
    SentSnoc(a + init, last);
    SentSnoc(init, last);
    var x := SentEvents(a) + Released(Trailing(a), Tick);
    if init == [] {
      assert a + init == a;
      FirstRelease(Trailing(a), last);
      SentNothing();
      Regroup(SentEvents(a), Released(Trailing(a), Tick), Released([], last));
    } else {
      SentFrom(a, init);
      TrailingStops(a, init);
      Regroup(x, SentEvents(init), Released(Trailing(init), last));
    }
  }

  lemma FirstRelease(held: seq<Event>, s: Step)
    requires !Thinks(s)
    ensures Released(held, s) == Released(held, Tick) + Released([], s)
  {
  }

  lemma SentNothing()
    ensures SentEvents([]) == [] && Trailing([]) == []
    ensures forall s: seq<Event> :: [] + s == s
  {
  }

  lemma ClosedStays(h: seq<Step>, k: seq<Step>)
    requires IsClosed(h)
    ensures IsClosed(h + k)
  {
    var j :| 0 <= j < |h| && h[j].Close?;
    assert (h + k)[j] == h[j];
  }

  /** Thoughts emitted after a close are held back until some other event is emitted: then the last
      of them is sent, and if there is none, none is. */
  lemma LateThoughtsWait(h: seq<Step>, window: seq<Step>, rest: seq<Step>)
    requires IsClosed(h) && Timed(h + window + rest) && !IsClosed(rest)
    requires window != [] && AllThoughts(window) && (rest != [] ==> !Thinks(rest[0]))
    ensures Thinks(window[|window| - 1])
    ensures rest != [] ==> rest[0].Emit?
    ensures SentEvents(h + window + rest) ==
            SentEvents(h) + if rest == [] then [] else [window[|window| - 1].event] + SentEvents(rest)
  {
    hide SentEvents, Trailing, Released, IsClosed, Timed;
    var last := window[|window| - 1].event;
    ThoughtsSendNothing(h, window);
    HeldBackIff(h + window);
    assert (h + window)[|h + window| - 1] == window[|window| - 1];
    if rest == [] {
      assert h + window + rest == h + window;
    } else {
      ClosedStays(h, window);
      AfterCloseOnlyEmits(h + window, rest);
      SentFrom(h + window, rest);
      ReleasedByOther(Trailing(h + window), last, Tick);
      Regroup(SentEvents(h), [last], SentEvents(rest));
    }
  }

  lemma AfterCloseOnlyEmits(h: seq<Step>, rest: seq<Step>)
    requires IsClosed(h) && Timed(h + rest) && !IsClosed(rest) && rest != []
    ensures rest[0].Emit?
  {
    var j :| 0 <= j < |h| && h[j].Close?;
    assert (h + rest)[j] == h[j] && (h + rest)[|h|] == rest[0];
    assert !rest[0].Close?;
  }
}
