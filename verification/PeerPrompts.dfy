/** Prompts that reach the host over a guest's peer channel, beside those the relay forwards. The
    relay looks a guest's tier up anew for each prompt; a peer keeps the tier of its offer. */
module PeerPrompts {
  import opened Options
  import opened RelayPolicy
  import opened RelaySpec
  import opened RelayRuns
  import opened RelayLateJoin

  /** The relay and its host: the policy the host goes by (`activePolicy`), the tier kept with each
      peer (`peer.tierId`), and how many of the relay's messages are behind it. */
  datatype Net = Net(relay: Session, active: Option<Policy>, peers: map<string, string>, handled: nat)

  datatype NetStep =
    | RelayActs(action: Action)               // any handler of the relay but the policy route
    | Pushes(policy: Policy, answered: bool)  // `updatePolicy`: the relay's answer may get lost
    | Handles(arrives: bool)                  // the host's next message, or its loss with the link
    | ChannelCloses(id: string)
    | Disconnects

  function KeptTierId(tierId: string): string {
    if tierId != "" then tierId else "viewer"
  }

  /** What a message from the relay does to the peers: an offer opens one, a leaving closes it. */
  function PeersAfter(peers: map<string, string>, x: HostIn): map<string, string> {
    match x
    case Signal(m, id, tierId) =>
      if m.kind == "rtc-offer" && id != "" then peers[id := KeptTierId(tierId)] else peers
    case Left(id, _) => peers - {id}
    case _ => peers
  }

  function NetAfter(n: Net, step: NetStep): Net {
    match step
    case RelayActs(action) => n.(relay := Step(n.relay, action))
    case Pushes(policy, answered) =>
      n.(relay := SetPolicy(n.relay, PatchOf(policy)), active := if answered then Some(policy) else n.active)
    case Handles(arrives) =>
      if n.handled >= |n.relay.inbox| then n else
        n.(handled := n.handled + 1,
           peers := if arrives then PeersAfter(n.peers, n.relay.inbox[n.handled]) else n.peers)
    case ChannelCloses(id) => n.(peers := n.peers - {id})
    case Disconnects => n.(active := None, peers := map[])
  }

  /** What the host does with the relay's next message: an offer opens a channel, or replaces it, and
      fixes its tier, `viewer` if the offer names none; a guest's leaving ends its channel; a message that
      is lost, or any other, changes no channel. */
  lemma HandlingIs(n: Net, arrives: bool, id: string)
    requires n.handled < |n.relay.inbox|
    ensures var r, x := NetAfter(n, Handles(arrives)), n.relay.inbox[n.handled];
            && r == n.(handled := n.handled + 1, peers := r.peers)
            && (!arrives ==> r.peers == n.peers)
            && (arrives && x.Signal? && x.msg.kind == "rtc-offer" && x.guestId != "" ==>
                  r.peers == n.peers[x.guestId := if x.tierId == "" then "viewer" else x.tierId])
            && (arrives && x.Left? ==> r.peers == n.peers - {x.guestId})
            && (!x.Left? && !(x.Signal? && x.msg.kind == "rtc-offer" && x.guestId != "") ==> r.peers == n.peers)
  {
  }

  /** A push changes the relay's policy at once, and the host's when the answer arrives; disconnecting
      takes the host's policy and every channel. */
  lemma PushingIs(n: Net, policy: Policy, answered: bool, id: string)
    ensures var r := NetAfter(n, Pushes(policy, answered));
            && r.relay.policy == policy.(requirePromptApproval := true)
            && r.active == (if answered then Some(policy) else n.active)
            && r.peers == n.peers && r.handled == n.handled
    ensures NetAfter(n, Disconnects) == n.(active := None, peers := map[])
    ensures NetAfter(n, ChannelCloses(id)) == n.(peers := n.peers - {id})
  {
    hide PlacedGuests, PlacedSockets, PolicyNews, SendEach;
  }

  function NetRun(n: Net, steps: seq<NetStep>): Net {
    if steps == [] then n else NetAfter(NetRun(n, steps[..|steps| - 1]), steps[|steps| - 1])
  }

  predicate Fits(n: Net, step: NetStep) {
    step.RelayActs? ==> !step.action.PolicyPushed? && Enabled(n.relay, step.action)
  }

  ghost predicate Lawful(n: Net, steps: seq<NetStep>) {
    forall k :: 0 <= k < |steps| ==> Fits(NetRun(n, steps[..k]), steps[k])
  }

  function NewNet(policy: Policy): Net {
    Net(NewSession(policy), None, map[], 0)
  }

  // -- The two paths of a prompt ---------------------------------------------

  predicate MayPrompt(tier: Option<Tier>) {
    tier.Some? && tier.value.permissions.submitPrompts
  }

  /** The tier a channel's prompts are judged by, on the host. */
  function ChannelTier(n: Net, id: string): Option<Tier> {
    if id in n.peers && n.active.Some? then FindTier(n.active.value.accessTiers, n.peers[id]) else None
  }

  /** The tier a guest's prompts are judged by, on the relay. */
  function RelayTier(s: Session, id: string): Option<Tier> {
    if id in s.guests && s.guests[id].admitted then TierFor(s.policy, s.guests[id].tierId) else None
  }

  function PeerName(name: string): string {
    var n := if name != "" then name else "Guest";
    if |n| <= 40 then n else n[..40]
  }

  /** `handlePeerMessage`: what the host dispatches for a message from a guest's channel. */
  function OverChannel(n: Net, id: string, m: Msg): seq<HostIn> {
    var tier := ChannelTier(n, id);
    if m.kind != "guest-prompt" || !MayPrompt(tier) then [] else
      [PromptFor(id, Guest(PeerName(m.name), tier.value.id, true), tier.value, m)]
  }

  /** A dispatched prompt has the name the message gives, cut to 40 characters, the kept tier as role, and
      what that tier grants. */
  lemma ChannelPromptIs(n: Net, id: string, m: Msg)
    requires m.kind == "guest-prompt" && MayPrompt(ChannelTier(n, id))
    ensures |OverChannel(n, id, m)| == 1 && OverChannel(n, id, m)[0].Prompt?
    ensures var x, tier := OverChannel(n, id, m)[0], ChannelTier(n, id).value;
            && x.guestId == id && x.role == n.peers[id]
            && (m.name == "" ==> x.name == "Guest")
            && (0 < |m.name| <= 40 ==> x.name == m.name)
            && (40 < |m.name| ==> x.name == m.name[..40])
            && x.content == (if |m.content| < 4000 then m.content else m.content[..4000])
            && (x.autoExecute <==> tier.permissions.autoExecutePrompts && tier.permissions.fullSystemAccess)
            && x.commandAllowlist == tier.permissions.commandAllowlist
            && x.commandBlocklist == tier.permissions.commandBlocklist
  {
  }

  /** What the relay forwards for the same message, to a host that is connected. */
  function OverRelay(s: Session, id: string, m: Msg): seq<HostIn> {
    var r := GuestMessage(s.(hostUp := true), id, m);
    r.inbox[|s.inbox|..]
  }

  lemma RelayForwards(s: Session, id: string, m: Msg)
    requires m.kind == "guest-prompt"
    ensures OverRelay(s, id, m) ==
            if MayPrompt(RelayTier(s, id)) then [PromptFor(id, s.guests[id], RelayTier(s, id).value, m)] else []
  {
    hide TierFor, PromptFor;
  }

  /** A prompt gets through on the channel that the relay would not forward. */
  predicate GetsPast(n: Net, id: string, m: Msg) {
    OverChannel(n, id, m) != [] && OverRelay(n.relay, id, m) == []
  }

  lemma GetsPastIff(n: Net, id: string, m: Msg)
    ensures GetsPast(n, id, m) <==>
            m.kind == "guest-prompt" && MayPrompt(ChannelTier(n, id)) && !MayPrompt(RelayTier(n.relay, id))
  {
    hide MayPrompt, ChannelTier, RelayTier, PromptFor, OverRelay;
    if m.kind == "guest-prompt" {
      RelayForwards(n.relay, id, m);
    }
  }

  /** The guest's name is that of its connection on the relay and that of the message on the channel. */
  predicate SameButName(a: seq<HostIn>, b: seq<HostIn>) {
    |a| == |b| <= 1 && (|a| == 1 ==> a[0].Prompt? && b[0].Prompt? && a[0].(name := b[0].name) == b[0])
  }

  predicate TakesModel(t: Tier, model: string) {
    model != "" && ("*" in t.allowedModels || model in t.allowedModels)
  }

  predicate TakesLevel(t: Tier, model: string, level: string) {
    TakesModel(t, model) && level != "" && model in t.reasoningByModel && level in t.reasoningByModel[model]
  }

  /** Two tiers that treat every prompt alike. */
  ghost predicate SameGrants(a: Tier, b: Tier) {
    var p, q := a.permissions, b.permissions;
    && (p.autoExecutePrompts && p.fullSystemAccess <==> q.autoExecutePrompts && q.fullSystemAccess)
    && p.commandAllowlist == q.commandAllowlist && p.commandBlocklist == q.commandBlocklist
    && (forall model :: TakesModel(a, model) <==> TakesModel(b, model))
    && (forall model, level :: TakesLevel(a, model, level) <==> TakesLevel(b, model, level))
  }

  function Asking(model: string, level: string): Msg {
    Msg("guest-prompt", "", false, "", "", [], "", model, level, "")
  }

  lemma PromptTakes(id: string, g: Guest, t: Tier, m: Msg)
    ensures PromptFor(id, g, t, m).Prompt?
    ensures PromptFor(id, g, t, m).model == if TakesModel(t, m.model) then m.model else ""
    ensures PromptFor(id, g, t, m).reasoningLevel ==
            if TakesLevel(t, m.model, m.reasoningLevel) then m.reasoningLevel else ""
  {
  }

  lemma SamePromptsIff(id: string, g: Guest, a: Tier, h: Guest, b: Tier)
    ensures (forall m: Msg :: SameButName([PromptFor(id, g, a, m)], [PromptFor(id, h, b, m)])) <==>
            g.tierId == h.tierId && SameGrants(a, b)
  {
    hide TakesModel, TakesLevel, AllowedModel, AllowedReasoning;
    if g.tierId == h.tierId && SameGrants(a, b) {
      forall m: Msg ensures SameButName([PromptFor(id, g, a, m)], [PromptFor(id, h, b, m)]) {
        PromptTakes(id, g, a, m);
        PromptTakes(id, h, b, m);
      }
    }
    if forall m: Msg :: SameButName([PromptFor(id, g, a, m)], [PromptFor(id, h, b, m)]) {
      var m := Asking("", "");
      assert SameButName([PromptFor(id, g, a, m)], [PromptFor(id, h, b, m)]);
      forall model ensures TakesModel(a, model) <==> TakesModel(b, model) {
        SameAnswer(id, g, a, h, b, model, "");
      }
      forall model, level ensures TakesLevel(a, model, level) <==> TakesLevel(b, model, level) {
        SameAnswer(id, g, a, h, b, model, level);
      }
    }
  }

  lemma SameAnswer(id: string, g: Guest, a: Tier, h: Guest, b: Tier, model: string, level: string)
    requires forall m: Msg :: SameButName([PromptFor(id, g, a, m)], [PromptFor(id, h, b, m)])
    ensures TakesModel(a, model) <==> TakesModel(b, model)
    ensures TakesLevel(a, model, level) <==> TakesLevel(b, model, level)
  {
    hide PromptFor;
    var m := Asking(model, level);
    assert SameButName([PromptFor(id, g, a, m)], [PromptFor(id, h, b, m)]);
    PromptTakes(id, g, a, m);
    PromptTakes(id, h, b, m);
  }

  /** The two paths treat every prompt of a guest alike, but for the name, exactly when neither takes
      any, or both do under the same tier id with tiers that grant the same. */
  lemma PathsAgreeIff(n: Net, id: string)
    ensures (forall m: Msg :: m.kind == "guest-prompt" ==>
               SameButName(OverChannel(n, id, m), OverRelay(n.relay, id, m)))
            <==>
            if MayPrompt(ChannelTier(n, id)) && MayPrompt(RelayTier(n.relay, id))
            then n.relay.guests[id].tierId == n.peers[id] &&
                 SameGrants(ChannelTier(n, id).value, RelayTier(n.relay, id).value)
            else !MayPrompt(ChannelTier(n, id)) && !MayPrompt(RelayTier(n.relay, id))
  {
    hide MayPrompt, ChannelTier, RelayTier, TierFor, PromptFor, OverRelay, SameGrants;
    var a, b := ChannelTier(n, id), RelayTier(n.relay, id);
    forall m: Msg | m.kind == "guest-prompt"
      ensures OverRelay(n.relay, id, m) == [] <==> !MayPrompt(b)
    {
      RelayForwards(n.relay, id, m);
    }
    var some := Asking("", "");
    assert SameButName(OverChannel(n, id, some), OverRelay(n.relay, id, some)) ==> MayPrompt(a) == MayPrompt(b);
    if MayPrompt(a) && MayPrompt(b) {
      PromptsOnBothPaths(n, id);
    }
  }

  lemma PromptsOnBothPaths(n: Net, id: string)
    requires MayPrompt(ChannelTier(n, id)) && MayPrompt(RelayTier(n.relay, id))
    ensures (forall m: Msg :: m.kind == "guest-prompt" ==>
               SameButName(OverChannel(n, id, m), OverRelay(n.relay, id, m)))
            <==>
            n.relay.guests[id].tierId == n.peers[id] &&
            SameGrants(ChannelTier(n, id).value, RelayTier(n.relay, id).value)
  {
    hide TierFor, PromptFor, OverRelay, SameGrants, SameButName;
    var a, b := ChannelTier(n, id).value, RelayTier(n.relay, id).value;
    forall m: Msg
      ensures SameButName([PromptFor(id, Guest("", a.id, true), a, m)], [PromptFor(id, n.relay.guests[id], b, m)]) <==>
              (var p := m.(kind := "guest-prompt");
               SameButName(OverChannel(n, id, p), OverRelay(n.relay, id, p)))
    {
      RelayForwards(n.relay, id, m.(kind := "guest-prompt"));
      KindAndNameDoNotMatter(id, a, n.relay.guests[id], b, PeerName(m.name), m);
    }
    SamePromptsIff(id, Guest("", a.id, true), a, n.relay.guests[id], b);
  }

  lemma KindAndNameDoNotMatter(id: string, a: Tier, h: Guest, b: Tier, name: string, m: Msg)
    ensures var p := m.(kind := "guest-prompt");
            SameButName([PromptFor(id, Guest("", a.id, true), a, m)], [PromptFor(id, h, b, m)]) <==>
            SameButName([PromptFor(id, Guest(name, a.id, true), a, p)], [PromptFor(id, h, b, p)])
  {
    hide AllowedModel, AllowedReasoning;
  }

  // -- Runs ------------------------------------------------------------------

  predicate IsOffer(x: HostIn) {
    x.Signal? && x.msg.kind == "rtc-offer"
  }

  /** A guest that has been admitted stays so until it leaves, as ids are not used again. */
  ghost predicate Known(s: Session, id: string) {
    id in s.outbox && (id in s.guests ==> s.guests[id].admitted)
  }

  lemma StaysKnown(s: Session, a: Action, id: string)
    requires Known(s, id) && Enabled(s, a)
    ensures Known(Step(s, a), id)
  {
    hide HostMessage, SetPolicy, ToHost, TierFor, FilterSwitches, PromptFor;
    match a
    case HostSays(m) => HostMessageFrame(s, m);
    case PolicyPushed(patch) => SetPolicyFrame(s, patch);
    case _ =>
  }

  /** The guest was admitted and on the kept tier when it made an offer in step `j`. */
  ghost predicate OfferedAt(start: Net, steps: seq<NetStep>, j: nat, id: string, kept: string)
    requires j < |steps|
  {
    var s := NetRun(start, steps[..j]).relay;
    && steps[j].RelayActs? && steps[j].action.GuestSays? && steps[j].action.id == id
    && steps[j].action.msg.kind == "rtc-offer"
    && id in s.guests && s.guests[id].admitted && kept == KeptTierId(s.guests[id].tierId)
  }

  ghost predicate Offered(start: Net, steps: seq<NetStep>, id: string, kept: string) {
    exists j: nat :: j < |steps| && OfferedAt(start, steps, j, id, kept)
  }

  /** Every peer, and every offer on its way, goes back to an offer its guest made while admitted. */
  ghost predicate Grounded(start: Net, steps: seq<NetStep>, n: Net) {
    && Agreed(n.relay) && n.handled <= |n.relay.inbox|
    && (forall id :: id in n.peers ==> Known(n.relay, id) && Offered(start, steps, id, n.peers[id]))
    && (forall k :: 0 <= k < |n.relay.inbox| && IsOffer(n.relay.inbox[k]) ==>
          Known(n.relay, n.relay.inbox[k].guestId) &&
          Offered(start, steps, n.relay.inbox[k].guestId, KeptTierId(n.relay.inbox[k].tierId)))
  }

  lemma OfferedEarlier(start: Net, steps: seq<NetStep>, id: string, kept: string)
    requires steps != [] && Offered(start, steps[..|steps| - 1], id, kept)
    ensures Offered(start, steps, id, kept)
  {
    var init := steps[..|steps| - 1];
    var j: nat :| j < |init| && OfferedAt(start, init, j, id, kept);
    assert steps[..j] == init[..j];
    assert OfferedAt(start, steps, j, id, kept);
  }

  lemma OfferedNow(start: Net, steps: seq<NetStep>, id: string, m: Msg)
    requires steps != [] && steps[|steps| - 1] == RelayActs(GuestSays(id, m)) && m.kind == "rtc-offer"
    requires var s := NetRun(start, steps[..|steps| - 1]).relay; id in s.guests && s.guests[id].admitted
    ensures var s := NetRun(start, steps[..|steps| - 1]).relay;
            Offered(start, steps, id, KeptTierId(s.guests[id].tierId))
  {
    var s := NetRun(start, steps[..|steps| - 1]).relay;
    assert OfferedAt(start, steps, |steps| - 1, id, KeptTierId(s.guests[id].tierId));
  }

  lemma ActingKeepsGrounded(start: Net, steps: seq<NetStep>, action: Action)
    requires steps != [] && steps[|steps| - 1] == RelayActs(action)
    requires Grounded(start, steps[..|steps| - 1], NetRun(start, steps[..|steps| - 1]))
    requires Enabled(NetRun(start, steps[..|steps| - 1]).relay, action)
    ensures Grounded(start, steps, NetRun(start, steps))
  {
    hide Agreed, Step, Enabled, Known, OfferedAt, Offered;
    var init, n, r := steps[..|steps| - 1], NetRun(start, steps[..|steps| - 1]), NetRun(start, steps);
    InboxFrame(n.relay, action);
    StepKeepsAgreed(n.relay, action);
    forall id | id in r.peers ensures Known(r.relay, id) && Offered(start, steps, id, r.peers[id]) {
      StaysKnown(n.relay, action, id);
      OfferedEarlier(start, steps, id, r.peers[id]);
    }
    forall k | 0 <= k < |r.relay.inbox| && IsOffer(r.relay.inbox[k])
      ensures Known(r.relay, r.relay.inbox[k].guestId)
      ensures Offered(start, steps, r.relay.inbox[k].guestId, KeptTierId(r.relay.inbox[k].tierId))
    {
      var x := r.relay.inbox[k];
      if k < |n.relay.inbox| {
        assert x == n.relay.inbox[k];
        OfferedEarlier(start, steps, x.guestId, KeptTierId(x.tierId));
      } else {
        AdmittedIsKnown(n.relay, x.guestId);
        OfferedNow(start, steps, x.guestId, action.msg);
      }
      StaysKnown(n.relay, action, x.guestId);
    }
  }

  lemma AdmittedIsKnown(s: Session, id: string)
    requires Agreed(s) && id in s.guests && s.guests[id].admitted
    ensures Known(s, id)
  {
  }

  lemma OtherStepKeepsGrounded(start: Net, steps: seq<NetStep>)
    requires steps != [] && !steps[|steps| - 1].RelayActs?
    requires Grounded(start, steps[..|steps| - 1], NetRun(start, steps[..|steps| - 1]))
    ensures Grounded(start, steps, NetRun(start, steps))
  {
    hide Agreed, SetPolicy, Known, OfferedAt, Offered;
    var init, n, r := steps[..|steps| - 1], NetRun(start, steps[..|steps| - 1]), NetRun(start, steps);
    var last := steps[|steps| - 1];
    if last.Pushes? {
      var patch := PatchOf(last.policy);
      SetPolicyFrame(n.relay, patch);
      SetPolicyKeepsAgreed(n.relay, patch);
      forall id | Known(n.relay, id) ensures Known(r.relay, id) {
        PushKeepsKnown(n.relay, patch, id);
      }
    }
    forall id, kept | Offered(start, init, id, kept) ensures Offered(start, steps, id, kept) {
      OfferedEarlier(start, steps, id, kept);
    }
  }

  lemma PushKeepsKnown(s: Session, patch: PolicyPatch, id: string)
    requires Known(s, id)
    ensures Known(SetPolicy(s, patch), id)
  {
    hide SetPolicy;
    SetPolicyFrame(s, patch);
  }

  lemma {:induction false} ReachableIsGrounded(policy: Policy, steps: seq<NetStep>)
    requires Lawful(NewNet(policy), steps)
    ensures Grounded(NewNet(policy), steps, NetRun(NewNet(policy), steps))
  {
    var start := NewNet(policy);
    if steps == [] {
      NewSessionIsFine(policy);
    } else {
      var init, last := steps[..|steps| - 1], steps[|steps| - 1];
      assert forall k :: 0 <= k < |init| ==> init[..k] == steps[..k];
      ReachableIsGrounded(policy, init);
      hide Grounded, NetRun;
      assert Fits(NetRun(start, init), last);
      if last.RelayActs? {
        ActingKeepsGrounded(start, steps, last.action);
      } else {
        OtherStepKeepsGrounded(start, steps);
      }
    }
  }

  /** The policy the relay goes by: the one pushed last, whether or not its answer arrived. */
  function LastPushed(policy: Policy, steps: seq<NetStep>): Policy {
    if steps == [] then policy else
      var last := steps[|steps| - 1];
      if last.Pushes? then last.policy.(requirePromptApproval := true)
      else LastPushed(policy, steps[..|steps| - 1])
  }

  /** The policy the host goes by: the one whose answer arrived last, if any since it connected. */
  function LastAnswered(steps: seq<NetStep>): Option<Policy> {
    if steps == [] then None else
      var last := steps[|steps| - 1];
      if last.Pushes? && last.answered then Some(last.policy)
      else if last.Disconnects? then None
      else LastAnswered(steps[..|steps| - 1])
  }

  lemma {:induction false} PoliciesOfRun(policy: Policy, steps: seq<NetStep>)
    requires Lawful(NewNet(policy), steps)
    ensures var n := NetRun(NewNet(policy), steps);
            n.relay.policy == LastPushed(policy, steps) && n.active == LastAnswered(steps)
  {
    if steps != [] {
      hide Step, SetPolicy, PeersAfter, Enabled;
      var init, last := steps[..|steps| - 1], steps[|steps| - 1];
      assert forall k :: 0 <= k < |init| ==> init[..k] == steps[..k];
      PoliciesOfRun(policy, init);
      var n := NetRun(NewNet(policy), init);
      assert Fits(n, last);
      if last.RelayActs? {
        PolicyFrame(n.relay, last.action);
      } else if last.Pushes? {
        PolicyFrame(n.relay, PolicyPushed(PatchOf(last.policy)));
        assert Step(n.relay, PolicyPushed(PatchOf(last.policy))) == SetPolicy(n.relay, PatchOf(last.policy)) by {
          PushIsStep(n.relay, PatchOf(last.policy));
        }
      }
    }
  }

  lemma PushIsStep(s: Session, patch: PolicyPatch)
    ensures Step(s, PolicyPushed(patch)) == SetPolicy(s, patch)
  {
  }

  /** In every run, a prompt the relay would not forward gets through on a guest's channel exactly
      when the tier kept with the channel may prompt under the policy the host got an answer for
      last, and the guest has left or its present tier may not prompt under the policy pushed last.
      The kept tier is one the guest had when it made an offer, while admitted. */
  lemma GetsPastInRunIff(policy: Policy, steps: seq<NetStep>, id: string, m: Msg)
    requires Lawful(NewNet(policy), steps) && m.kind == "guest-prompt"
    ensures var n, heard := NetRun(NewNet(policy), steps), LastAnswered(steps);
            && (GetsPast(n, id, m) <==>
                  && id in n.peers && heard.Some?
                  && MayPrompt(FindTier(heard.value.accessTiers, n.peers[id]))
                  && (id in n.relay.guests ==>
                        !MayPrompt(TierFor(LastPushed(policy, steps), n.relay.guests[id].tierId))))
            && (id in n.peers ==> Offered(NewNet(policy), steps, id, n.peers[id]))
  {
    hide MayPrompt, TierFor, FindTier, GetsPast, NetRun, Offered;
    var n := NetRun(NewNet(policy), steps);
    ReachableIsGrounded(policy, steps);
    PoliciesOfRun(policy, steps);
    GetsPastIff(n, id, m);
    assert !MayPrompt(None) by { NobodyMayNot(); }
  }

  lemma NobodyMayNot()
    ensures !MayPrompt(None)
  {
  }

  /** So in every run it takes a push whose answer was lost, or a guest that has left, or one whose
      tier is not the one it had at its offer: if none of these, nothing gets past the relay. */
  lemma GettingPastNeedsAChange(policy: Policy, steps: seq<NetStep>, id: string, m: Msg)
    requires Lawful(NewNet(policy), steps)
    requires var n := NetRun(NewNet(policy), steps);
             id in n.peers && id in n.relay.guests && n.relay.guests[id].tierId == n.peers[id]
    requires LastAnswered(steps).Some? ==>
               LastAnswered(steps).value.accessTiers == LastPushed(policy, steps).accessTiers
    ensures !GetsPast(NetRun(NewNet(policy), steps), id, m)
  {
    hide GetsPast, NetRun, Offered, Lawful;
    if m.kind == "guest-prompt" {
      GetsPastInRunIff(policy, steps, id, m);
    } else {
      GetsPastIff(NetRun(NewNet(policy), steps), id, m);
    }
  }

  // -- Guests that go on prompting -------------------------------------------

  predicate AboutChannel(x: HostIn, id: string) {
    (IsOffer(x) || x.Left?) && x.guestId == id
  }

  /** The guest has a channel, and nothing on its way to the host will replace or close it. */
  ghost predicate Settled(n: Net, id: string) {
    && id in n.peers && n.handled <= |n.relay.inbox|
    && forall k :: n.handled <= k < |n.relay.inbox| ==> !AboutChannel(n.relay.inbox[k], id)
  }

  /** Steps in which neither end gives the channel up, nor is it offered anew. */
  predicate SparesChannel(step: NetStep, id: string) {
    match step
    case RelayActs(a) =>
      (a.GuestSays? && a.id == id ==> a.msg.kind != "rtc-offer") && (a.GuestCloses? ==> a.id != id)
    case ChannelCloses(g) => g != id
    case Disconnects => false
    case _ => true
  }

  lemma ChannelStays(n: Net, step: NetStep, id: string)
    requires Settled(n, id) && SparesChannel(step, id)
    ensures Settled(NetAfter(n, step), id) && NetAfter(n, step).peers[id] == n.peers[id]
    ensures !step.Pushes? ==> NetAfter(n, step).active == n.active
  {
    hide Step, SetPolicy;
    match step
    case RelayActs(a) => InboxFrame(n.relay, a);
    case Pushes(policy, _) => SetPolicyFrame(n.relay, PatchOf(policy));
    case Handles(_) =>
      assert n.handled < |n.relay.inbox| ==> !AboutChannel(n.relay.inbox[n.handled], id);
    case _ =>
  }

  /** A guest moved to a tier that may not prompt goes on prompting over its channel, with what the
      tier of its offer grants, in every later state until the channel goes or policy or guest change. */
  lemma DemotedGuestGoesOn(n: Net, assign: Msg, later: seq<NetStep>, id: string, m: Msg)
    requires Settled(n, id) && MayPrompt(ChannelTier(n, id))
    requires id != "" && id in n.relay.guests && n.relay.guests[id].admitted
    requires assign.kind == "assign-tier" && assign.guestId == id && HasTier(n.relay.policy, assign.tierId)
    requires !MayPrompt(FindTier(n.relay.policy.accessTiers, assign.tierId))
    requires forall k :: 0 <= k < |later| ==>
               && SparesChannel(later[k], id) && !later[k].Pushes?
               && (later[k].RelayActs? ==> Keeps(later[k].action, id))
    requires m.kind == "guest-prompt"
    ensures GetsPast(NetRun(NetAfter(n, RelayActs(HostSays(assign))), later), id, m)
  {
    hide MayPrompt, FindTier, NetRun, Settled, GetsPast;
    var n1 := NetAfter(n, RelayActs(HostSays(assign)));
    ChannelStays(n, RelayActs(HostSays(assign)), id);
    AssignedStands(n.relay, assign);
    StandingLasts(n1, later, id, TierFor(n1.relay.policy, assign.tierId));
    GetsPastIff(NetRun(n1, later), id, m);
  }

  lemma AssignedStands(s: Session, assign: Msg)
    requires assign.kind == "assign-tier" && assign.guestId != "" && HasTier(s.policy, assign.tierId)
    requires assign.guestId in s.guests && s.guests[assign.guestId].admitted
    ensures var r := Step(s, HostSays(assign));
            && Stands(r, assign.guestId, FindTier(s.policy.accessTiers, assign.tierId))
            && r.policy == s.policy
            && TierFor(r.policy, assign.tierId) == FindTier(s.policy.accessTiers, assign.tierId)
  {
    hide Send, FindTier;
  }

  lemma {:induction false} StandingLasts(n: Net, later: seq<NetStep>, id: string, tier: Option<Tier>)
    requires Settled(n, id) && Stands(n.relay, id, tier)
    requires forall k :: 0 <= k < |later| ==>
               && SparesChannel(later[k], id) && !later[k].Pushes?
               && (later[k].RelayActs? ==> Keeps(later[k].action, id))
    ensures var r := NetRun(n, later);
            Settled(r, id) && Stands(r.relay, id, tier) && ChannelTier(r, id) == ChannelTier(n, id)
  {
    if later != [] {
      hide Settled, Stands, SparesChannel, Keeps, Step, View, FindTier;
      var init, last := later[..|later| - 1], later[|later| - 1];
      StandingLasts(n, init, id, tier);
      ChannelStays(NetRun(n, init), last, id);
      if last.RelayActs? {
        StepView(NetRun(n, init).relay, last.action, id, tier);
      }
    }
  }

  /** A guest that leaves while the host's link to the relay is down goes on prompting over its channel
      in every later state until the channel goes or a policy is pushed: the host never hears of it. */
  lemma DepartedGuestGoesOn(n: Net, name: string, later: seq<NetStep>, id: string, m: Msg)
    requires Settled(n, id) && MayPrompt(ChannelTier(n, id)) && !n.relay.hostUp
    requires forall k :: 0 <= k < |later| ==>
               && SparesChannel(later[k], id) && !later[k].Pushes?
               && (later[k].RelayActs? && later[k].action.GuestOpens? ==> later[k].action.id != id)
    requires m.kind == "guest-prompt"
    ensures GetsPast(NetRun(NetAfter(n, RelayActs(GuestCloses(id, name))), later), id, m)
  {
    hide MayPrompt, NetRun, GetsPast;
    var n1 := NetAfter(n, RelayActs(GuestCloses(id, name)));
    assert Settled(n1, id) && id !in n1.relay.guests && ChannelTier(n1, id) == ChannelTier(n, id);
    AbsenceLasts(n1, later, id);
    GetsPastIff(NetRun(n1, later), id, m);
    NobodyMayNot();
  }

  lemma {:induction false} AbsenceLasts(n: Net, later: seq<NetStep>, id: string)
    requires Settled(n, id) && id !in n.relay.guests
    requires forall k :: 0 <= k < |later| ==>
               && SparesChannel(later[k], id) && !later[k].Pushes?
               && (later[k].RelayActs? && later[k].action.GuestOpens? ==> later[k].action.id != id)
    ensures var r := NetRun(n, later);
            Settled(r, id) && id !in r.relay.guests && ChannelTier(r, id) == ChannelTier(n, id)
  {
    if later != [] {
      hide Settled, SparesChannel, Step, FindTier;
      var init, last := later[..|later| - 1], later[|later| - 1];
      AbsenceLasts(n, init, id);
      ChannelStays(NetRun(n, init), last, id);
      if last.RelayActs? {
        NobodyElseEnters(NetRun(n, init).relay, last.action, id);
      }
    }
  }

  lemma NobodyElseEnters(s: Session, a: Action, id: string)
    requires id !in s.guests && (a.GuestOpens? ==> a.id != id)
    ensures id !in Step(s, a).guests
  {
    hide HostMessage, SetPolicy, Send, SendEach, SendAll, TierFor, FilterSwitches, PromptFor;
    match a
    case HostSays(m) => HostMessageFrame(s, m);
    case PolicyPushed(patch) => SetPolicyFrame(s, patch);
    case _ =>
  }

  /** One such run, for any policy that lets guests in by itself and has a tier that may prompt and one
      that may not: the host pushes it, a guest comes and makes its offer, and is then moved down. */
  function Demotion(policy: Policy, high: string, low: string): seq<NetStep> {
    [RelayActs(HostOpens), Pushes(policy, true),
     RelayActs(GuestOpens("g", "Ann", high)), RelayActs(GuestSays("g", Plain("rtc-offer", ""))),
     Handles(true), Handles(true), Handles(true),
     RelayActs(HostSays(Plain("assign-tier", "").(guestId := "g", tierId := low)))]
  }

  lemma DemotionHappens(policy: Policy, high: string, low: string, m: Msg)
    requires policy.autoJoin && high != "" && m.kind == "guest-prompt"
    requires MayPrompt(FindTier(policy.accessTiers, high))
    requires HasTier(policy, low) && !MayPrompt(FindTier(policy.accessTiers, low))
    ensures Lawful(NewNet(policy), Demotion(policy, high, low))
    ensures GetsPast(NetRun(NewNet(policy), Demotion(policy, high, low)), "g", m)
  {
    hide MayPrompt, FindTier, GetsPast, NetRun, Step, SetPolicy, Plain;
    var start, steps := NewNet(policy), Demotion(policy, high, low);
    Nothing(start);
    assert steps[..0] == [] && steps[..8] == steps;
    FollowDemotion(start, steps);
    Opening(policy, high);
    Signalling(NetRun(start, steps[..4]), high);
    Lowering(NetRun(start, steps[..7]).relay, low);
    assert ChannelTier(NetRun(start, steps), "g") == FindTier(policy.accessTiers, high);
    GetsPastIff(NetRun(start, steps), "g", m);
  }

  lemma FollowDemotion(start: Net, steps: seq<NetStep>)
    requires |steps| == 8
    ensures NetRun(start, steps[..1]) == NetAfter(NetRun(start, steps[..0]), steps[0])
    ensures NetRun(start, steps[..2]) == NetAfter(NetRun(start, steps[..1]), steps[1])
    ensures NetRun(start, steps[..3]) == NetAfter(NetRun(start, steps[..2]), steps[2])
    ensures NetRun(start, steps[..4]) == NetAfter(NetRun(start, steps[..3]), steps[3])
    ensures NetRun(start, steps[..5]) == NetAfter(NetRun(start, steps[..4]), steps[4])
    ensures NetRun(start, steps[..6]) == NetAfter(NetRun(start, steps[..5]), steps[5])
    ensures NetRun(start, steps[..7]) == NetAfter(NetRun(start, steps[..6]), steps[6])
    ensures NetRun(start, steps[..8]) == NetAfter(NetRun(start, steps[..7]), steps[7])
  {
    hide NetRun, NetAfter;
    RunOn(start, steps, 0); RunOn(start, steps, 1); RunOn(start, steps, 2); RunOn(start, steps, 3);
    RunOn(start, steps, 4); RunOn(start, steps, 5); RunOn(start, steps, 6); RunOn(start, steps, 7);
  }

  lemma Nothing(start: Net)
    ensures NetRun(start, []) == start
  {
  }

  lemma RunOn(start: Net, steps: seq<NetStep>, k: nat)
    requires k < |steps|
    ensures NetRun(start, steps[..k + 1]) == NetAfter(NetRun(start, steps[..k]), steps[k])
  {
    assert steps[..k + 1][..k] == steps[..k];
  }

  /** The first four steps. */
  lemma Opening(policy: Policy, high: string)
    requires policy.autoJoin
    ensures var n0 := NewNet(policy);
            var n1 := NetAfter(n0, RelayActs(HostOpens));
            var n2 := NetAfter(n1, Pushes(policy, true));
            var n3 := NetAfter(n2, RelayActs(GuestOpens("g", "Ann", high)));
            var n4 := NetAfter(n3, RelayActs(GuestSays("g", Plain("rtc-offer", ""))));
            && "g" !in n2.relay.outbox
            && n4.active == Some(policy) && n4.peers == map[] && n4.handled == 0
            && n4.relay.guests == map["g" := Guest("Ann", high, true)]
            && n4.relay.policy.accessTiers == policy.accessTiers
            && |n4.relay.inbox| == 3 && n4.relay.inbox[0].GuestList? && n4.relay.inbox[1].Joined?
            && n4.relay.inbox[2] == Signal(Plain("rtc-offer", ""), "g", high)
  {
    hide TierFor, FilterSwitches, TierUnder;
    var n2 := NetAfter(NetAfter(NewNet(policy), RelayActs(HostOpens)), Pushes(policy, true));
    assert n2.relay.guests == map[] && n2.relay.outbox == map[] && n2.relay.policy.autoJoin;
  }

  /** The next three: the host handles the offer. */
  lemma Signalling(n: Net, high: string)
    requires n.peers == map[] && n.handled == 0 && high != ""
    requires |n.relay.inbox| == 3 && n.relay.inbox[0].GuestList? && n.relay.inbox[1].Joined?
    requires n.relay.inbox[2] == Signal(Plain("rtc-offer", ""), "g", high)
    ensures NetAfter(NetAfter(NetAfter(n, Handles(true)), Handles(true)), Handles(true)) ==
            n.(handled := 3, peers := map["g" := high])
  {
  }

  /** The last. */
  lemma Lowering(s: Session, low: string)
    requires "g" in s.guests && s.guests == map["g" := Guest("Ann", s.guests["g"].tierId, true)]
    requires HasTier(s.policy, low)
    ensures var r := Step(s, HostSays(Plain("assign-tier", "").(guestId := "g", tierId := low)));
            && r.policy == s.policy
            && r.guests == map["g" := Guest("Ann", low, true)]
            && TierFor(r.policy, low) == FindTier(s.policy.accessTiers, low)
  {
    hide FindTier, Send;
  }
}
