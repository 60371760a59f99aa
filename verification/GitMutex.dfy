/** The mutex made of a chain of promises: each caller waits for the one before it. */
module GitMutex {
  import opened Options

  /** For each caller in order of arrival: whether it has been let in, and whether its promise is
      resolved, which its release does. */
  datatype State = State(granted: seq<bool>, resolved: seq<bool>)
  datatype Op = Arrive | Grant(who: nat) | Release(who: nat)

  ghost predicate Proper(s: State) {
    |s.granted| == |s.resolved|
  }

  predicate Waiting(s: State, who: nat) {
    who < |s.granted| && !s.granted[who]
  }

  /** A waiting caller goes on once the promise before it is resolved; the first has none before it. */
  predicate CanEnter(s: State, who: nat) {
    && Waiting(s, who) && |s.granted| == |s.resolved|
    && (who == 0 || s.resolved[who - 1])
  }

  predicate Holds(s: State, who: nat) {
    who < |s.granted| && who < |s.resolved| && s.granted[who] && !s.resolved[who]
  }

  /** A caller has its release only once it was let in; calling it again is allowed. */
  predicate CanRelease(s: State, who: nat) {
    who < |s.granted| && who < |s.resolved| && s.granted[who]
  }

  function Step(s: State, op: Op): Option<State> {
    match op
    case Arrive => Some(State(s.granted + [false], s.resolved + [false]))
    case Grant(who) => if CanEnter(s, who) then Some(s.(granted := s.granted[who := true])) else None
    case Release(who) => if CanRelease(s, who) then Some(s.(resolved := s.resolved[who := true])) else None
  }

  /** Anyone can arrive, and then waits; a caller gets in exactly if it waits and is the first or the one
      before it has released, and releases exactly if it got in. Nothing else changes by any of these. */
  lemma StepIs(s: State, who: nat, k: nat)
    requires Proper(s) && k < |s.granted|
    ensures var t := Step(s, Arrive);
            t.Some? && |t.value.granted| == |s.granted| + 1 && Proper(t.value) && Waiting(t.value, |s.granted|)
            && !t.value.resolved[|s.granted|]
            && t.value.granted[k] == s.granted[k] && t.value.resolved[k] == s.resolved[k]
    ensures Step(s, Grant(who)).Some? <==>
            who < |s.granted| && !s.granted[who] && (who > 0 ==> s.resolved[who - 1])
    ensures Step(s, Grant(who)).Some? ==>
              var t := Step(s, Grant(who)).value;
              Proper(t) && |t.granted| == |s.granted| && t.resolved == s.resolved
              && t.granted[k] == (s.granted[k] || k == who)
    ensures Step(s, Release(who)).Some? <==> who < |s.granted| && s.granted[who]
    ensures Step(s, Release(who)).Some? ==>
              var t := Step(s, Release(who)).value;
              Proper(t) && |t.resolved| == |s.resolved| && t.granted == s.granted
              && t.resolved[k] == (s.resolved[k] || k == who)
  {
  }

  function Run(s: State, ops: seq<Op>): Option<State>
    decreases |ops|
  {
    if ops == [] then Some(s) else
      match Step(s, ops[0])
      case None => None
      case Some(t) => Run(t, ops[1..])
  }

  function Start(): State {
    State([], [])
  }

  // -- The invariant ---------------------------------------------------------

  function Count(l: seq<bool>): nat {
    if l == [] then 0 else Count(l[..|l| - 1]) + if l[|l| - 1] then 1 else 0
  }

  /** The callers let in are the first `g`; all of them have released, but perhaps the last. */
  ghost predicate Queue(s: State, g: nat) {
    && Proper(s) && g <= |s.granted|
    && (forall k :: 0 <= k < |s.granted| ==> (s.granted[k] <==> k < g))
    && (forall k :: 0 <= k < |s.granted| ==> (k < g - 1 ==> s.resolved[k]) && (k >= g ==> !s.resolved[k]))
  }

  ghost predicate Inv(s: State) {
    exists g: nat :: Queue(s, g)
  }

  lemma StepKeepsQueue(s: State, op: Op, g: nat)
    requires Queue(s, g) && Step(s, op).Some?
    ensures Queue(Step(s, op).value, if op.Grant? then g + 1 else g)
    ensures op.Grant? ==> op.who == g
  {
  }

  /** Every reachable state is a queue. */
  lemma {:induction false} ReachableIsQueue(s: State, ops: seq<Op>)
    requires Inv(s) && Run(s, ops).Some?
    ensures Inv(Run(s, ops).value)
    decreases |ops|
  {
    if ops != [] {
      var g: nat :| Queue(s, g);
      StepKeepsQueue(s, ops[0], g);
      ReachableIsQueue(Step(s, ops[0]).value, ops[1..]);
    }
  }

  lemma StartIsQueue()
    ensures Inv(Start())
  {
    assert Queue(Start(), 0);
  }

  /** At most one caller is inside at any time. */
  lemma MutualExclusion(ops: seq<Op>, j: nat, k: nat)
    requires Run(Start(), ops).Some?
    requires Holds(Run(Start(), ops).value, j) && Holds(Run(Start(), ops).value, k)
    ensures j == k
  {
    StartIsQueue();
    ReachableIsQueue(Start(), ops);
    var s := Run(Start(), ops).value;
    var g: nat :| Queue(s, g);
    assert j < g && k < g && !(j < g - 1) && !(k < g - 1);
  }

  /** The callers let in, in order. */
  function Granted(ops: seq<Op>): seq<nat> {
    if ops == [] then [] else (if ops[0].Grant? then [ops[0].who] else []) + Granted(ops[1..])
  }

  lemma {:induction false} GrantsCountUp(s: State, ops: seq<Op>, g: nat, k: nat)
    requires Queue(s, g) && Run(s, ops).Some? && k < |Granted(ops)|
    ensures Granted(ops)[k] == g + k
    decreases |ops|
  {
    StepKeepsQueue(s, ops[0], g);
    var t := Step(s, ops[0]).value;
    if ops[0].Grant? {
      if k > 0 {
        GrantsCountUp(t, ops[1..], g + 1, k - 1);
      }
    } else {
      assert Granted(ops) == Granted(ops[1..]);
      GrantsCountUp(t, ops[1..], g, k);
    }
  }

  /** Callers are let in exactly in the order they arrived. */
  lemma FirstComeFirstServed(ops: seq<Op>, k: nat)
    requires Run(Start(), ops).Some? && k < |Granted(ops)|
    ensures Granted(ops)[k] == k
  {
    assert Queue(Start(), 0);
    GrantsCountUp(Start(), ops, 0, k);
  }

  /** A second release of the same caller, however much later, changes nothing. */
  lemma {:induction false} ReleaseAgainChangesNothing(s: State, who: nat, ops: seq<Op>)
    requires CanRelease(s, who) && Run(Step(s, Release(who)).value, ops).Some?
    ensures var t := Run(Step(s, Release(who)).value, ops).value; Step(t, Release(who)) == Some(t)
  {
    StaysReleased(Step(s, Release(who)).value, who, ops);
    var t := Run(Step(s, Release(who)).value, ops).value;
    assert t.resolved[who := true] == t.resolved;
  }

  lemma {:induction false} StaysReleased(s: State, who: nat, ops: seq<Op>)
    requires CanRelease(s, who) && s.resolved[who] && Run(s, ops).Some?
    ensures var t := Run(s, ops).value; CanRelease(t, who) && t.resolved[who]
    decreases |ops|
  {
    if ops != [] {
      StaysReleased(Step(s, ops[0]).value, who, ops[1..]);
    }
  }

  // -- Nobody waits for ever -------------------------------------------------

  /** A step that lets someone in, or a first release. */
  predicate Progresses(s: State, op: Op) {
    (op.Grant? && CanEnter(s, op.who)) || (op.Release? && Holds(s, op.who))
  }

  /** While someone waits, someone can be let in or has yet to release. */
  lemma NeverStuck(ops: seq<Op>, who: nat)
    requires Run(Start(), ops).Some? && Waiting(Run(Start(), ops).value, who)
    ensures var s := Run(Start(), ops).value;
            exists op :: Progresses(s, op) && Step(s, op).Some?
  {
    StartIsQueue();
    ReachableIsQueue(Start(), ops);
    var s := Run(Start(), ops).value;
    var g: nat :| Queue(s, g);
    assert g <= who;
    if g > 0 && !s.resolved[g - 1] {
      assert Progresses(s, Release(g - 1));
    } else {
      assert Progresses(s, Grant(g));
    }
  }

  /** How many steps of a run let someone in or are first releases. */
  function Progress(s: State, ops: seq<Op>): nat
    decreases |ops|
  {
    if ops == [] then 0 else
      match Step(s, ops[0])
      case None => 0
      case Some(t) => (if Progresses(s, ops[0]) then 1 else 0) + Progress(t, ops[1..])
  }

  lemma {:induction false} CountSet(l: seq<bool>, k: nat)
    requires k < |l|
    ensures Count(l[k := true]) == Count(l) + if l[k] then 0 else 1
    decreases |l|
  {
    var m := l[k := true];
    if k < |l| - 1 {
      assert m[..|m| - 1] == l[..|l| - 1][k := true];
      CountSet(l[..|l| - 1], k);
    } else {
      assert m[..|m| - 1] == l[..|l| - 1];
    }
  }

  lemma CountSnoc(l: seq<bool>)
    ensures Count(l + [false]) == Count(l)
  {
    assert (l + [false])[..|l|] == l;
  }

  lemma {:induction false} ProgressAddsUp(s: State, ops: seq<Op>)
    requires Run(s, ops).Some?
    ensures var t := Run(s, ops).value;
            Count(t.granted) + Count(t.resolved) == Count(s.granted) + Count(s.resolved) + Progress(s, ops)
    decreases |ops|
  {
    if ops != [] {
      ProgressAddsUp(Step(s, ops[0]).value, ops[1..]);
      match ops[0]
      case Arrive =>
        CountSnoc(s.granted);
        CountSnoc(s.resolved);
      case Grant(who) => CountSet(s.granted, who);
      case Release(who) => CountSet(s.resolved, who);
    }
  }

  lemma {:induction false} CountBelow(l: seq<bool>, g: nat)
    requires forall k :: g <= k < |l| ==> !l[k]
    ensures Count(l) <= g
    decreases |l|
  {
    if l != [] {
      var n := |l| - 1;
      if l[n] {
        CountAtMost(l);
      } else {
        CountBelow(l[..n], g);
      }
    }
  }

  lemma {:induction false} CountAtMost(l: seq<bool>)
    ensures Count(l) <= |l|
    decreases |l|
  {
    if l != [] {
      CountAtMost(l[..|l| - 1]);
    }
  }

  /** The caller number `who` is inside after at most `2 * who + 1` grants and first releases,
      however many others arrive meanwhile. */
  lemma EveryoneGetsIn(ops: seq<Op>, who: nat)
    requires Run(Start(), ops).Some? && Progress(Start(), ops) > 2 * who
    ensures var s := Run(Start(), ops).value; who < |s.granted| && s.granted[who]
  {
    StartIsQueue();
    ReachableIsQueue(Start(), ops);
    ProgressAddsUp(Start(), ops);
    var s := Run(Start(), ops).value;
    var g: nat :| Queue(s, g);
    CountBelow(s.granted, g);
    CountBelow(s.resolved, g);
    assert Count(s.granted) + Count(s.resolved) <= 2 * g;
  }

  // -- The object ------------------------------------------------------------

  class AsyncMutex {
    /** The promise the next caller waits for, by number. */
    var promise: Option<nat>
    var resolved: seq<bool>
    ghost var granted: seq<bool>

    ghost predicate Valid()
      reads this
    {
      && |granted| == |resolved|
      && promise == if resolved == [] then None else Some(|resolved| - 1)
    }

    ghost function Now(): State
      reads this
    {
      State(granted, resolved)
    }

    constructor ()
      ensures Valid() && Now() == Start()
    {
      promise, resolved, granted := None, [], [];
    }

    /** The part of `acquire` before the wait: leaves the own promise for the next caller. */
    method Acquire() returns (own: nat, previous: Option<nat>)
      requires Valid()
      modifies this
      ensures Valid() && Step(old(Now()), Arrive) == Some(Now())
      ensures own == |old(resolved)| && previous == (if own == 0 then None else Some(own - 1))
    {
      own := |resolved|;
      resolved := resolved + [false];
      granted := granted + [false];
      previous := promise;
      promise := Some(own);
    }

    /** The part after the wait: goes on if there was no promise to wait for or it is resolved. */
    method Resume(own: nat, previous: Option<nat>) returns (entered: bool)
      requires Valid() && own < |resolved| && !granted[own]
      requires previous == (if own == 0 then None else Some(own - 1))
      modifies this
      ensures Valid() && resolved == old(resolved)
      ensures entered <==> CanEnter(old(Now()), own)
      ensures entered ==> Step(old(Now()), Grant(own)) == Some(Now())
      ensures !entered ==> Now() == old(Now())
    {
      entered := previous.None? || resolved[previous.value];
      if entered {
        granted := granted[own := true];
      }
    }

    /** What the returned function does. */
    method Resolve(own: nat)
      requires Valid() && CanRelease(Now(), own)
      modifies this
      ensures Valid() && Step(old(Now()), Release(own)) == Some(Now())
    {
      resolved := resolved[own := true];
    }
  }
}
