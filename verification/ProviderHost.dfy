/** The host's side of remote inference: who is served, and what is streamed back. */
module ProviderHost {
  import opened Options
  import opened Inference
  import RelayPolicy
  import ProjectSync

  /** How the provider's own stream ends. */
  datatype Ending = Completes | Throws(error: string)

  datatype Request = Request(tierId: string, id: Id, provider: string, model: string)

  /** The checks made before anything runs, in order; `Some` is the refusal's text. */
  function Refusal(shared: set<string>, policy: Option<RelayPolicy.Policy>, r: Request): Option<string> {
    if r.provider !in shared then Some("Provider \"" + r.provider + "\" is not shared by this host.")
    else
      var tier := if policy.Some? then RelayPolicy.FindTier(policy.value.accessTiers, r.tierId) else None;
      if tier.None? || !tier.value.permissions.useRemoteProviders then
        Some("Your access tier does not permit using shared models.")
      else if "*" !in tier.value.allowedModels && r.model !in tier.value.allowedModels then
        Some("The host has not allowed the model \"" + r.model + "\" for your access level.")
      else None
  }

  /** A request is served if and only if its provider is shared and the first tier with its tier id, under
      the host's policy, may use the host's providers and has the model, or any, on its list. */
  lemma ServedIff(shared: set<string>, policy: Option<RelayPolicy.Policy>, r: Request)
    ensures Refusal(shared, policy, r).None? <==>
            && r.provider in shared
            && policy.Some?
            && exists k :: IsFirst(policy.value.accessTiers, r.tierId, k) &&
                 policy.value.accessTiers[k].permissions.useRemoteProviders &&
                 ("*" in policy.value.accessTiers[k].allowedModels ||
                  r.model in policy.value.accessTiers[k].allowedModels)
  {
    if policy.Some? {
      FirstIsFound(policy.value.accessTiers, r.tierId);
    }
    hide RelayPolicy.FindTier;
  }

  predicate IsFirst(tiers: seq<RelayPolicy.Tier>, id: string, k: int) {
    0 <= k < |tiers| && tiers[k].id == id && forall j :: 0 <= j < k ==> tiers[j].id != id
  }

  lemma {:induction false} FirstIsFound(tiers: seq<RelayPolicy.Tier>, id: string)
    ensures forall k :: IsFirst(tiers, id, k) ==> RelayPolicy.FindTier(tiers, id) == Some(tiers[k])
    ensures RelayPolicy.FindTier(tiers, id).Some? ==> exists k :: IsFirst(tiers, id, k)
  {
    forall k | IsFirst(tiers, id, k) ensures RelayPolicy.FindTier(tiers, id) == Some(tiers[k]) {
      RelayPolicy.FindTierIsFirst(tiers, id, k);
    }
    if tiers != [] {
      FirstIsFound(tiers[1..], id);
      if tiers[0].id == id {
        assert IsFirst(tiers, id, 0);
      } else if k :| IsFirst(tiers[1..], id, k) {
        assert forall j :: 0 < j < |tiers| ==> tiers[j] == tiers[1..][j - 1];
        assert IsFirst(tiers, id, k + 1);
      }
    }
  }

  /** Why a request is refused: the first of the three that applies. */
  lemma RefusalSays(shared: set<string>, policy: Option<RelayPolicy.Policy>, r: Request, k: nat)
    ensures r.provider !in shared ==>
              Refusal(shared, policy, r) == Some("Provider \"" + r.provider + "\" is not shared by this host.")
    ensures r.provider in shared && policy.None? ==>
              Refusal(shared, policy, r) == Some("Your access tier does not permit using shared models.")
    ensures r.provider in shared && policy.Some? &&
            (forall j :: 0 <= j < |policy.value.accessTiers| ==> policy.value.accessTiers[j].id != r.tierId) ==>
              Refusal(shared, policy, r) == Some("Your access tier does not permit using shared models.")
    ensures r.provider in shared && policy.Some? && IsFirst(policy.value.accessTiers, r.tierId, k) ==>
              var tier := policy.value.accessTiers[k];
              && (!tier.permissions.useRemoteProviders ==>
                    Refusal(shared, policy, r) == Some("Your access tier does not permit using shared models."))
              && (tier.permissions.useRemoteProviders && "*" !in tier.allowedModels && r.model !in tier.allowedModels
                  ==> Refusal(shared, policy, r) ==
                      Some("The host has not allowed the model \"" + r.model + "\" for your access level."))
  {
    if policy.Some? {
      FirstIsFound(policy.value.accessTiers, r.tierId);
    }
    hide RelayPolicy.FindTier;
  }

  /** The events a guest gets: rewritten for its project, those that cannot be rewritten left out. */
  function Outgoing(rebase: Ev -> Option<Ev>, raw: seq<Ev>): seq<Ev> {
    if raw == [] then [] else
      var last := rebase(raw[|raw| - 1]);
      Outgoing(rebase, raw[..|raw| - 1]) + if last.Some? then [last.value] else []
  }

  lemma {:induction false} OutgoingAppend(rebase: Ev -> Option<Ev>, a: seq<Ev>, b: seq<Ev>)
    ensures Outgoing(rebase, a + b) == Outgoing(rebase, a) + Outgoing(rebase, b)
  {
    if b == [] {
      assert a + b == a;
    } else {
      assert (a + b)[..|a + b| - 1] == a + b[..|b| - 1];
      OutgoingAppend(rebase, a, b[..|b| - 1]);
    }
  }

  /** Each event goes out once, in order (`OutgoingAppend`), as rewritten, unless it cannot be. */
  lemma OutgoingIs(rebase: Ev -> Option<Ev>, ev: Ev)
    ensures rebase(ev).Some? ==> Outgoing(rebase, [ev]) == [rebase(ev).value]
    ensures rebase(ev).None? ==> Outgoing(rebase, [ev]) == []
  {
    assert [ev][..0] == [];
  }

  /** `mine` is a complete answer to request `id`: the events, then exactly one end. */
  ghost predicate CompleteAnswer(mine: seq<Wire>, id: Id, events: seq<Ev>, end: Wire) {
    && mine != [] && mine[|mine| - 1] == end
    && !end.EventMsg? && end.id == id
    && |events| == |mine| - 1
    && forall k :: 0 <= k < |events| ==> mine[k] == EventMsg(id, events[k])
  }

  /** A complete answer is what the protocol expects of a handler. */
  lemma CompleteAnswerOnTheWire(mine: seq<Wire>, id: Id, events: seq<Ev>, end: Wire)
    requires CompleteAnswer(mine, id, events, end)
    ensures Events(mine, id) == events && Ends(mine, id) == 1 && Closed(mine, id)
  {
    hide Events, Ends, Closed;
    var body := mine[..|mine| - 1];
    assert mine == body + [end];
    EventsOnTheWire(body, id, events);
    Snoc(body, end, id);
    ClosedSnoc(body, end, id);
  }

  lemma {:induction false} EventsOnTheWire(w: seq<Wire>, id: Id, events: seq<Ev>)
    requires |w| == |events| && forall k :: 0 <= k < |w| ==> w[k] == EventMsg(id, events[k])
    ensures Events(w, id) == events && Ends(w, id) == 0 && Closed(w, id)
  {
    if w != [] {
      EventsOnTheWire(w[..|w| - 1], id, events[..|w| - 1]);
    }
  }

  class Host {
    var shared: set<string>
    var policy: Option<RelayPolicy.Policy>
    var activeRequests: set<Id>
    var sent: seq<Wire>

    constructor (shared: set<string>, policy: Option<RelayPolicy.Policy>)
      ensures this.shared == shared && this.policy == policy && activeRequests == {} && sent == []
    {
      this.shared, this.policy, activeRequests, sent := shared, policy, {}, [];
    }

    /** `handleInferenceRequest`. `raw` is what the provider streams before its `ending`; the
        abort signal is seen set from the `abortAt`-th event on. */
    method HandleInferenceRequest(r: Request, raw: seq<Ev>, ending: Ending, abortAt: nat, rebase: Ev -> Option<Ev>)
      modifies this`activeRequests, this`sent
      ensures old(sent) <= sent
      ensures var refusal := Refusal(shared, policy, r);
              var taken := if abortAt < |raw| then raw[..abortAt] else raw;
              var events := if refusal.Some? then [] else Outgoing(rebase, taken);
              var end := if refusal.Some? then ErrorMsg(r.id, refusal.value)
                         else if ending.Throws? && abortAt >= |raw| then ErrorMsg(r.id, ending.error)
                         else DoneMsg(r.id);
              CompleteAnswer(sent[|old(sent)|..], r.id, events, end)
      ensures Refusal(shared, policy, r).None? ==> activeRequests == old(activeRequests) - {r.id}
    {
      hide Refusal;
      var refusal := Refusal(shared, policy, r);
      if refusal.Some? {
        sent := sent + [ErrorMsg(r.id, refusal.value)];
        return;
      }
      activeRequests := activeRequests + {r.id};
      ghost var events := [];
      var i := 0;
      var aborted := false;
      while i < |raw| && !aborted
        invariant 0 <= i <= |raw| && i <= abortAt
        invariant aborted ==> i == abortAt < |raw|
        invariant events == Outgoing(rebase, raw[..i])
        invariant old(sent) <= sent && |sent| == |old(sent)| + |events|
        invariant forall k :: 0 <= k < |events| ==> sent[|old(sent)| + k] == EventMsg(r.id, events[k])
        invariant activeRequests == old(activeRequests) + {r.id}
        decreases |raw| - i, !aborted
      {
        if i >= abortAt {
          aborted := true;
        } else {
          assert raw[..i + 1][..i] == raw[..i];
          var out := rebase(raw[i]);
          i := i + 1;
          if out.Some? {
            sent := sent + [EventMsg(r.id, out.value)];
            events := events + [out.value];
          }
        }
      }
      assert aborted || raw[..i] == raw;
      if ending.Throws? && !aborted {
        sent := sent + [ErrorMsg(r.id, ending.error)];
      } else {
        sent := sent + [DoneMsg(r.id)];
      }
      activeRequests := activeRequests - {r.id};
    }
  }

  // -- Rewriting file edits --------------------------------------------------

  /** A path split at its slashes. Absolute ones are normalised; of relative ones nothing is assumed. */
  datatype FilePath = Absolute(parts: seq<string>) | Relative(parts: seq<string>)

  /** `path.relative(root, p)` */
  function RelativeTo(root: seq<string>, p: seq<string>): seq<string> {
    if root == [] || p == [] || root[0] != p[0] then seq(|root|, _ => "..") + p
    else RelativeTo(root[1..], p[1..])
  }

  /** `rebaseFileEdit` on the path of a file edit; `None` drops the event. */
  function RebaseFileEdit(root: seq<string>, p: FilePath): Option<seq<string>> {
    if p.Relative? then Some(p.parts) else
      var rel := RelativeTo(root, p.parts);
      if rel != [] && ".." <= rel[0] then None else Some(rel)
  }

  lemma {:induction false} RelativeToAt(root: seq<string>, p: seq<string>)
    ensures root <= p ==> RelativeTo(root, p) == p[|root|..]
    ensures !(root <= p) ==> RelativeTo(root, p) != [] && RelativeTo(root, p)[0] == ".."
  {
    if root != [] && p != [] && root[0] == p[0] {
      RelativeToAt(root[1..], p[1..]);
      assert root <= p <==> root[1..] <= p[1..] by {
        assert root == [root[0]] + root[1..] && p == [p[0]] + p[1..];
      }
      assert root <= p ==> p[|root|..] == p[1..][|root| - 1..];
    } else if root == [] {
      assert seq(0, _ => "..") + p == p;
    }
  }

  /** An edit at an absolute path is sent on, relative to the sandbox, exactly when it lies inside
      the sandbox and its first component does not itself begin with two dots. */
  lemma RebaseSendsIff(root: seq<string>, p: seq<string>)
    ensures RebaseFileEdit(root, Absolute(p)).Some? <==>
            root <= p && (|root| < |p| ==> !(".." <= p[|root|]))
    ensures RebaseFileEdit(root, Absolute(p)).Some? ==> root + RebaseFileEdit(root, Absolute(p)).value == p
  {
    RelativeToAt(root, p);
  }

  /** The place below which `parts` leads when followed from a directory, component by component. */
  function Follow(at: seq<string>, parts: seq<string>): seq<string> {
    if parts == [] then at else
      var before, last := Follow(at, parts[..|parts| - 1]), parts[|parts| - 1];
      if last == ".." then (if before == [] then [] else before[..|before| - 1])
      else if last == "." || last == "" then before
      else before + [last]
  }

  /** Where an edit takes place when the host's tool follows its path from the sandbox. */
  function Place(root: seq<string>, p: FilePath): seq<string> {
    if p.Absolute? then p.parts else Follow(root, p.parts)
  }

  predicate Inside(root: seq<string>, p: FilePath) {
    root <= Place(root, p)
  }

  predicate Names(parts: seq<string>) {
    forall k :: 0 <= k < |parts| ==> parts[k] != ".." && parts[k] != "." && parts[k] != ""
  }

  function Ups(n: nat): seq<string> {
    if n == 0 then [] else Ups(n - 1) + [".."]
  }

  lemma {:induction false} FollowUps(at: seq<string>, n: nat)
    requires n <= |at|
    ensures Follow(at, Ups(n)) == at[..|at| - n]
  {
    if n > 0 {
      FollowUps(at, n - 1);
      assert Ups(n)[..|Ups(n)| - 1] == Ups(n - 1);
    }
  }

  lemma {:induction false} FollowNames(at: seq<string>, before: seq<string>, names: seq<string>)
    requires Names(names)
    ensures Follow(at, before + names) == Follow(at, before) + names
    decreases |names|
  {
    if names == [] {
      assert before + names == before;
    } else {
      var init, last := names[..|names| - 1], names[|names| - 1];
      FollowNames(at, before, init);
      assert (before + names)[..|before + names| - 1] == before + init;
      assert names == init + [last];
    }
  }

  /** A `.` or an empty component leads nowhere, wherever it stands. */
  lemma {:induction false} FollowSkips(at: seq<string>, p: seq<string>, here: string, q: seq<string>)
    requires here == "." || here == ""
    ensures Follow(at, p + [here] + q) == Follow(at, p + q)
    decreases |q|
  {
    if q == [] {
      assert p + [here] + q == p + [here] && p + q == p;
      assert (p + [here])[..|p|] == p;
      assert here != "..";
    } else {
      FollowSkips(at, p, here, q[..|q| - 1]);
      var long, short := p + [here] + q, p + q;
      assert long[..|long| - 1] == p + [here] + q[..|q| - 1] && short[..|short| - 1] == p + q[..|q| - 1];
    }
  }

  /** Whatever the host writes of a project lies in the sandbox: a path it accepts, followed from the
      sandbox, never leads out of it. */
  lemma {:induction false} AcceptedStaysInside(root: seq<string>, p: seq<string>)
    requires forall k :: 0 <= k < |p| ==> !ProjectSync.HasDoubleDot(p[k])
    ensures Inside(root, Relative(p))
    decreases |p|
  {
    if p != [] {
      var last := p[|p| - 1];
      AcceptedStaysInside(root, p[..|p| - 1]);
      assert last != ".." by {
        assert ".."[0] == '.' && ".."[1] == '.';
      }
    }
  }

  /** A relative path that goes up `n` times and then down by names stays inside if and only if the
      names lead back down the components it went up. */
  lemma RelativeInsideIff(root: seq<string>, n: nat, names: seq<string>)
    requires n <= |root| && Names(names)
    ensures Inside(root, Relative(Ups(n) + names)) <==> root[|root| - n..] <= names
  {
    FollowUps(root, n);
    FollowNames(root, Ups(n), names);
    var kept, gone := root[..|root| - n], root[|root| - n..];
    assert root == kept + gone;
    hide Follow;
    if root <= kept + names {
      assert gone == (kept + names)[|kept|..][..n];
    }
    if gone <= names {
      assert kept + gone <= kept + names;
    }
  }

  /** An edit outside the sandbox is dropped, as is promised, if and only if its path is absolute;
      a relative path that leads out of the sandbox is sent on as it is. */
  lemma OutsideIsDroppedIff(root: seq<string>, p: FilePath)
    requires !Inside(root, p)
    ensures RebaseFileEdit(root, p).None? <==> p.Absolute?
    ensures p.Relative? ==> RebaseFileEdit(root, p) == Some(p.parts)
  {
    RelativeToAt(root, p.parts);
  }

  /** For every sandbox there are edits outside it that are sent: one step up and into a sibling,
      at once or later in the path. */
  lemma OutsideIsSent(root: seq<string>, deep: seq<string>)
    requires root != [] && (deep == [] || (deep == ["a", ".."]))
    ensures var p := Relative(deep + ["..", root[|root| - 1] + "x"]);
            !Inside(root, p) && RebaseFileEdit(root, p) == Some(p.parts)
  {
    var up, name := root[..|root| - 1], root[|root| - 1] + "x";
    assert Follow(root, deep) == root by {
      assert ["a", ".."][..1] == ["a"] && ["a"][..0] == [];
      assert Follow(root, ["a"]) == root + ["a"];
      assert (root + ["a"])[..|root|] == root;
    }
    var one, two := deep + [".."], deep + ["..", name];
    assert one[..|deep|] == deep && two[..|one|] == one;
    NotDots(root[|root| - 1], name);
    assert Follow(root, two) == up + [name];
    assert (up + [name])[|root| - 1] != root[|root| - 1];
  }

  lemma NotDots(last: string, name: string)
    requires name == last + "x"
    ensures name != last && name != ".." && name != "." && name != ""
  {
    assert name[|name| - 1] == 'x';
  }
}
