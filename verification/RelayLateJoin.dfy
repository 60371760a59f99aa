/** What one guest sees over a run of the relay, and which prompts it can get through. */
module RelayLateJoin {
  import opened Options
  import opened RelayPolicy
  import opened RelaySpec
  import opened Sequences
  import RelayRuns

  // -- A guest's view of the host's events -----------------------------------

  function StripAll(ms: seq<Msg>): seq<Msg> {
    if ms == [] then [] else [Strip(ms[0])] + StripAll(ms[1..])
  }

  function ViewOne(o: Out): seq<Msg> {
    if o.Init? then StripAll(o.history)
    else if o.Event? then [o.msg]
    else []
  }

  /** The host events a guest has been shown, in order: history on admission, then broadcasts. */
  function View(outs: seq<Out>): seq<Msg> {
    if outs == [] then [] else View(outs[..|outs| - 1]) + ViewOne(outs[|outs| - 1])
  }

  function ShownOne(m: Msg, id: string, tier: Option<Tier>): seq<Msg> {
    if id !in m.excludeGuestIds && EventAllowed(m, tier) then [Strip(m)] else []
  }

  /** The part of the host's log that a guest on `tier` is to be shown over the relay. */
  function Shown(log: seq<Msg>, id: string, tier: Option<Tier>): seq<Msg> {
    if log == [] then [] else
      Shown(log[..|log| - 1], id, tier) + ShownOne(log[|log| - 1], id, tier)
  }

  lemma {:induction false} ViewAppend(a: seq<Out>, b: seq<Out>)
    ensures View(a + b) == View(a) + View(b)
  {
    hide ViewOne;
    if b == [] {
      assert a + b == a;
    } else {
      var last := b[|b| - 1];
      assert (a + b)[..|a + b| - 1] == a + b[..|b| - 1];
      ViewAppend(a, b[..|b| - 1]);
    }
  }

  lemma ViewOfOne(o: Out)
    ensures View([o]) == ViewOne(o)
  {
    assert [o][..0] == [];
  }

  lemma ShownSnoc(log: seq<Msg>, m: Msg, id: string, tier: Option<Tier>)
    ensures Shown(log + [m], id, tier) == Shown(log, id, tier) + ShownOne(m, id, tier)
  {
    assert (log + [m])[..|log|] == log;
  }

  // -- One transition --------------------------------------------------------

  /** Actions that leave a guest, its tier and the policy alone. */
  predicate Keeps(a: Action, id: string) {
    match a
    case PolicyPushed(_) => false
    case GuestOpens(g, _, _) => g != id
    case GuestCloses(g, _) => g != id
    case HostSays(m) => m.kind in ["join-decision", "assign-tier"] ==> m.guestId != id
    case _ => true
  }

  predicate Stands(s: Session, id: string, tier: Option<Tier>) {
    && id in s.guests
    && s.guests[id].admitted
    && TierFor(s.policy, s.guests[id].tierId) == tier
  }

  lemma SendView(s: Session, g: string, o: Out, id: string)
    ensures View(Log(Send(s, g, [o]), id)) == View(Log(s, id)) + if g == id then ViewOne(o) else []
  {
    if g == id {
      ViewAppend(Log(s, id), [o]);
      ViewOfOne(o);
    }
  }

  lemma SendAllView(s: Session, ids: set<string>, o: Out, id: string)
    ensures View(Log(SendAll(s, ids, o), id)) == View(Log(s, id)) + if id in ids then ViewOne(o) else []
  {
    var outs := map g | g in ids :: [o];
    var r := SendEach(s, outs);
    if id in ids {
      assert r.outbox[id] == Log(s, id) + [o];
      ViewAppend(Log(s, id), [o]);
      ViewOfOne(o);
    } else {
      assert Log(r, id) == Log(s, id);
    }
  }

  lemma BroadcastView(s: Session, m: Msg, id: string, tier: Option<Tier>)
    requires Stands(s, id, tier)
    ensures Stands(Broadcast(s, m), id, tier)
    ensures View(Log(Broadcast(s, m), id)) == View(Log(s, id)) + ShownOne(m, id, tier)
  {
    hide View, SendAll, Send, EventAllowed, TierFor;
    var s1 := SendAll(s, Recipients(s, m), Event(Strip(m)));
    SendAllView(s, Recipients(s, m), Event(Strip(m)), id);
    assert id in Recipients(s, m) <==> id !in m.excludeGuestIds && EventAllowed(m, tier);
    var s2 := s1.(history := if InHistory(m) then Remember(s.history, m) else s.history,
                  hostLog := s.hostLog + [m]);
    SendView(s2, m.guestId, ApprovalResult(m.approved), id);
  }

  lemma OtherHostMessageView(s: Session, m: Msg, id: string, tier: Option<Tier>)
    requires Stands(s, id, tier) && !IsBroadcast(m) && Keeps(HostSays(m), id)
    ensures Stands(HostMessage(s, m), id, tier)
    ensures View(Log(HostMessage(s, m), id)) == View(Log(s, id))
  {
    hide View, SendAll, Send, EventAllowed, TierFor, Watchers, Admitted, HasTier, FilterAllowed, IsBroadcast;
    SendAllView(s, Admitted(s), Catalog(m), id);
    SendView(s, m.guestId, Direct(m), id);
    SendView(s, m.guestId, Direct(m.(guestId := "")), id);
    if m.guestId in s.guests && m.kind == "assign-tier" {
      var s1 := s.(guests := s.guests[m.guestId := s.guests[m.guestId].(tierId := m.tierId)],
                   sockets := s.sockets[m.guestId := Socket(m.tierId, s.guests[m.guestId].admitted)]);
      SendView(s1, m.guestId, TierUpdated(TierFor(s.policy, m.tierId), s.policy), id);
    } else if m.guestId in s.guests && m.kind == "join-decision" {
      JoinOfAnotherView(s, m, id, tier);
    }
  }

  lemma JoinOfAnotherView(s: Session, m: Msg, id: string, tier: Option<Tier>)
    requires Stands(s, id, tier) && m.guestId in s.guests && m.guestId != id
    ensures Stands(JoinDecision(s, m), id, tier)
    ensures View(Log(JoinDecision(s, m), id)) == View(Log(s, id))
  {
    hide View, SendAll, Send, TierFor, Watchers, HasTier, FilterAllowed;
    if !m.approved {
      SendView(s, m.guestId, JoinRejected, id);
    } else {
      var guest := s.guests[m.guestId];
      var requested := if m.tierId != "" then m.tierId else guest.tierId;
      var tierId := if HasTier(s.policy, requested) then requested else s.policy.defaultTierId;
      var t := TierFor(s.policy, tierId);
      var s1 := s.(guests := s.guests[m.guestId := guest.(tierId := tierId, admitted := true)],
                   sockets := s.sockets[m.guestId := Socket(tierId, true)]);
      var init := Init(tierId, t, FilterAllowed(s.history, t));
      SendView(s1, m.guestId, init, id);
      SendAllView(Send(s1, m.guestId, [init]), Watchers(s1), GuestJoined(m.guestId, tierId), id);
    }
  }

  lemma OpeningKeepsStanding(s: Session, g: string, name: string, tierId: string, id: string, tier: Option<Tier>)
    requires Stands(s, id, tier) && g != id
    ensures Stands(OpenGuest(s, g, name, tierId), id, tier)
  {
  }

  lemma OpeningOfAnotherView(s: Session, g: string, name: string, tierId: string, id: string)
    requires g != id
    ensures View(Log(OpenGuest(s, g, name, tierId), id)) == View(Log(s, id))
  {
    hide View, SendAll, Send, TierFor, FilterSwitches, ToHost;
    var s1 := s.(sockets := s.sockets[g := Socket(tierId, s.policy.autoJoin)],
                 guests := s.guests[g := Guest(name, tierId, s.policy.autoJoin)]);
    var init := Init(tierId, TierFor(s.policy, tierId), FilterSwitches(s.history, s.policy));
    SendView(s1, g, JoinPending, id);
    SendView(s1, g, init, id);
    var s3 := ToHost(Send(s1, g, [init]), Joined(g, name, tierId));
    SendAllView(s3, s1.guests.Keys - {g}, GuestJoined(g, tierId), id);
  }

  lemma StepView(s: Session, a: Action, id: string, tier: Option<Tier>)
    requires Stands(s, id, tier) && Keeps(a, id)
    ensures Stands(Step(s, a), id, tier)
    ensures View(Log(Step(s, a), id)) ==
            View(Log(s, id)) + if a.HostSays? && IsBroadcast(a.msg) then ShownOne(a.msg, id, tier) else []
  {
    hide View, SendAll, Send, TierFor, ShownOne, OpenGuest, HostMessage, IsBroadcast, Broadcast,
      AllowedModel, AllowedReasoning, PromptFor;
    match a
    case GuestOpens(g, name, tierId) =>
      OpeningKeepsStanding(s, g, name, tierId, id, tier);
      OpeningOfAnotherView(s, g, name, tierId, id);
    case HostCloses => SendAllView(s.(hostUp := false), s.guests.Keys, HostDisconnected, id);
    case GuestCloses(g, name) =>
      var s1 := ToHost(s.(guests := s.guests - {g}), Left(g, name));
      SendAllView(s1, s1.guests.Keys, GuestLeft(g), id);
    case HostSays(m) =>
      if IsBroadcast(m) {
        BroadcastView(s, m, id, tier);
        assert HostMessage(s, m) == Broadcast(s, m) by { HostMessageBroadcasts(s, m); }
      } else {
        OtherHostMessageView(s, m, id, tier);
      }
    case HostOpens =>
    case GuestSays(_, _) =>
  }

  lemma HostMessageBroadcasts(s: Session, m: Msg)
    requires IsBroadcast(m)
    ensures HostMessage(s, m) == Broadcast(s, m)
  {
  }

  // -- Whole runs ------------------------------------------------------------

  /** The view is `seen` followed by what the host's log shows after position `n`. */
  ghost predicate Following(s: Session, n: nat, seen: seq<Msg>, id: string, tier: Option<Tier>) {
    && Stands(s, id, tier)
    && n <= |s.hostLog|
    && View(Log(s, id)) == seen + Shown(s.hostLog[n..], id, tier)
  }

  lemma StepFollows(s: Session, a: Action, n: nat, seen: seq<Msg>, id: string, tier: Option<Tier>)
    requires Following(s, n, seen, id, tier) && Keeps(a, id)
    ensures s.hostLog <= Step(s, a).hostLog && Following(Step(s, a), n, seen, id, tier)
  {
    hide View, Step, ShownOne, Shown, IsBroadcast, Stands, Keeps, Log, Remember, InHistory;
    StepView(s, a, id, tier);
    RelayRuns.LogFrame(s, a);
    if a.HostSays? && IsBroadcast(a.msg) {
      assert Step(s, a).hostLog[n..] == s.hostLog[n..] + [a.msg];
      ShownSnoc(s.hostLog[n..], a.msg, id, tier);
    }
  }

  lemma {:induction false} RunFollows(s: Session, actions: seq<Action>, id: string, tier: Option<Tier>)
    requires Stands(s, id, tier) && forall k :: 0 <= k < |actions| ==> Keeps(actions[k], id)
    ensures s.hostLog <= Run(s, actions).hostLog
    ensures Following(Run(s, actions), |s.hostLog|, View(Log(s, id)), id, tier)
  {
    if actions == [] {
      assert s.hostLog[|s.hostLog|..] == [];
    } else {
      hide Step, Following, Keeps, Stands;
      var init := actions[..|actions| - 1];
      RunFollows(s, init, id, tier);
      StepFollows(Run(s, init), actions[|init|], |s.hostLog|, View(Log(s, id)), id, tier);
    }
  }

  lemma {:induction false} NothingShownBefore(outs: seq<Out>)
    requires forall k :: 0 <= k < |outs| ==> !IsContent(outs[k])
    ensures View(outs) == []
  {
    if outs != [] {
      NothingShownBefore(outs[..|outs| - 1]);
    }
  }

  lemma AdmissionView(s: Session, m: Msg)
    requires Agreed(s) && m.guestId in s.guests && !s.guests[m.guestId].admitted && m.approved
    ensures var r, id := JoinDecision(s, m), m.guestId;
            && id in r.guests && r.guests[id].admitted
            && r.hostLog == s.hostLog
            && View(Log(r, id)) == StripAll(FilterAllowed(s.history, TierFor(r.policy, r.guests[id].tierId)))
  {
    hide View, SendAll, Send, TierFor, Watchers, HasTier, FilterAllowed;
    var id, guest := m.guestId, s.guests[m.guestId];
    NothingShownBefore(s.outbox[id]);
    var requested := if m.tierId != "" then m.tierId else guest.tierId;
    var tierId := if HasTier(s.policy, requested) then requested else s.policy.defaultTierId;
    var tier := TierFor(s.policy, tierId);
    var s1 := s.(guests := s.guests[id := guest.(tierId := tierId, admitted := true)],
                 sockets := s.sockets[id := Socket(tierId, true)]);
    var init := Init(tierId, tier, FilterAllowed(s.history, tier));
    SendView(s1, id, init, id);
    SendAllView(Send(s1, id, [init]), Watchers(s1), GuestJoined(id, tierId), id);
  }

  /** The late-join view has no gap and no duplicate: a guest admitted by the host's decision in
      a reachable state, whose tier and policy then stay fixed, is shown exactly what its tier
      allows of the last 200 history events at admission followed by every later broadcast (the
      relay leaves out only what went to the guest peer to peer). */
  lemma LateJoinView(policy: Policy, before: seq<Action>, m: Msg, later: seq<Action>)
    requires Legal(NewSession(policy), before)
    requires m.kind == "join-decision" && m.guestId != "" && m.approved
    requires var s := Run(NewSession(policy), before);
             m.guestId in s.guests && !s.guests[m.guestId].admitted
    requires forall k :: 0 <= k < |later| ==> Keeps(later[k], m.guestId)
    ensures var s := Run(NewSession(policy), before);
            var joined := Step(s, HostSays(m));
            var r := Run(joined, later);
            var id := m.guestId;
            id in joined.guests &&
            var tier := TierFor(joined.policy, joined.guests[id].tierId);
            && s.hostLog <= r.hostLog
            && View(Log(r, id)) ==
               StripAll(FilterAllowed(Suffix(HistoryEvents(s.hostLog), HISTORY_LIMIT), tier))
               + Shown(r.hostLog[|s.hostLog|..], id, tier)
  {
    hide View, JoinDecision, Run, TierFor, Agreed, Shown, FilterAllowed;
    RelayRuns.ReachableStates(policy, before);
    var s := Run(NewSession(policy), before);
    AdmissionView(s, m);
    var joined := Step(s, HostSays(m));
    RunFollows(joined, later, m.guestId, TierFor(joined.policy, joined.guests[m.guestId].tierId));
  }

  // -- Automatic admission ---------------------------------------------------

  ghost predicate OnlyHistory(h: seq<Msg>) {
    forall k :: 0 <= k < |h| ==> InHistory(h[k])
  }

  predicate DiffShown(tier: Tier, path: string) {
    var p := tier.permissions;
    p.viewDiffs && PathAllowed(path, if p.readPaths != [] then p.readPaths else ["**"])
  }

  /** The session-wide switches say the same as the tier, kind by kind. */
  ghost predicate SwitchesMatch(policy: Policy, tier: Tier) {
    && tier.permissions.viewChat
    && (policy.showAgentStatus <==> tier.permissions.viewAgentStatus)
    && (forall path :: policy.showDiffs <==> DiffShown(tier, path))
  }

  function Plain(kind: string, path: string): Msg {
    Msg(kind, "", false, "", path, [], "", "", "", "")
  }

  /** Under automatic admission the history is cut by the session-wide switches, not by the
      tier; the two agree on every history exactly when the switches match the tier. */
  lemma AutoJoinHistoryIff(policy: Policy, tier: Tier)
    ensures (forall h :: OnlyHistory(h) ==> FilterSwitches(h, policy) == FilterAllowed(h, Some(tier)))
            <==> SwitchesMatch(policy, tier)
  {
    if SwitchesMatch(policy, tier) {
      forall h | OnlyHistory(h) ensures FilterSwitches(h, policy) == FilterAllowed(h, Some(tier)) {
        MatchingSwitchesFilterAlike(h, policy, tier);
      }
    } else if !tier.permissions.viewChat {
      OneEvent(policy, tier, Plain("chat", ""));
    } else if policy.showAgentStatus != tier.permissions.viewAgentStatus {
      OneEvent(policy, tier, Plain("agent-status", ""));
    } else {
      var path :| policy.showDiffs != DiffShown(tier, path);
      OneEvent(policy, tier, Plain("diff", path));
    }
  }

  lemma OneEvent(policy: Policy, tier: Tier, m: Msg)
    requires InHistory(m)
    requires EventAllowed(m, Some(tier)) !=
             ((m.kind != "diff" || policy.showDiffs) && (m.kind != "agent-status" || policy.showAgentStatus))
    ensures OnlyHistory([m]) && FilterSwitches([m], policy) != FilterAllowed([m], Some(tier))
  {
    assert [m][1..] == [];
  }

  lemma {:induction false} MatchingSwitchesFilterAlike(h: seq<Msg>, policy: Policy, tier: Tier)
    requires OnlyHistory(h) && SwitchesMatch(policy, tier)
    ensures FilterSwitches(h, policy) == FilterAllowed(h, Some(tier))
  {
    if h != [] {
      assert DiffShown(tier, h[0].path) <==> policy.showDiffs;
      MatchingSwitchesFilterAlike(h[1..], policy, tier);
    }
  }

  // -- Prompts and tiers -----------------------------------------------------

  /** A forwarded prompt comes from an admitted guest whose tier may submit prompts, with a model
      and a reasoning level that are empty or the requested ones and allowed. */
  ghost predicate LegitPrompt(s: Session, x: HostIn, m: Msg)
    requires x.Prompt?
  {
    && x.guestId in s.guests && s.guests[x.guestId].admitted
    && x.name == s.guests[x.guestId].name && x.role == s.guests[x.guestId].tierId
    && var tier := TierFor(s.policy, x.role);
    && tier.Some?
    && var t, p := tier.value, tier.value.permissions;
    && p.submitPrompts
    && x.content <= m.content && (x.content == m.content || |x.content| == 4000) && |x.content| <= 4000
    && (x.model == "" || (x.model == m.model && ("*" in t.allowedModels || x.model in t.allowedModels)))
    && (x.reasoningLevel == "" ||
          (x.reasoningLevel == m.reasoningLevel && x.model in t.reasoningByModel &&
           x.reasoningLevel in t.reasoningByModel[x.model]))
    && (x.autoExecute <==> p.autoExecutePrompts && p.fullSystemAccess)
    && x.commandAllowlist == p.commandAllowlist && x.commandBlocklist == p.commandBlocklist
  }

  /** Over any transition, each prompt that reaches the host is a legitimate one of that moment. */
  lemma PromptsAreLegit(s: Session, a: Action)
    ensures var r := Step(s, a);
            && s.inbox <= r.inbox
            && forall k :: |s.inbox| <= k < |r.inbox| && r.inbox[k].Prompt? ==>
                 a.GuestSays? && r.inbox[k].guestId == a.id && LegitPrompt(s, r.inbox[k], a.msg)
  {
    hide Send, SendEach, SendAll, TierFor, IsBroadcast, HasTier, MergePolicy, TierUnder, FilterAllowed,
      FilterSwitches, Recipients, Watchers, Admitted, Remember, InHistory, LegitPrompt, PromptFor;
    if a.GuestSays? && a.id in s.guests {
      var tier := TierFor(s.policy, s.guests[a.id].tierId);
      if tier.Some? && tier.value.permissions.submitPrompts && s.guests[a.id].admitted {
        PromptForIsLegit(s, a.id, tier.value, a.msg);
      }
    }
  }

  lemma PromptForIsLegit(s: Session, id: string, tier: Tier, m: Msg)
    requires id in s.guests && s.guests[id].admitted && tier.permissions.submitPrompts
    requires TierFor(s.policy, s.guests[id].tierId) == Some(tier)
    ensures PromptFor(id, s.guests[id], tier, m).Prompt?
    ensures PromptFor(id, s.guests[id], tier, m).guestId == id
    ensures LegitPrompt(s, PromptFor(id, s.guests[id], tier, m), m)
  {
  }

  /** A pushed policy with a default tier leaves every guest on a tier that exists. */
  lemma PushedPolicyPlacesEveryGuest(s: Session, patch: PolicyPatch)
    requires Normal(MergePolicy(s.policy, patch))
    ensures var r := Step(s, PolicyPushed(patch));
            && r.guests.Keys == s.guests.Keys
            && forall id :: id in s.guests ==>
                 && HasTier(r.policy, r.guests[id].tierId)
                 && TierFor(r.policy, r.guests[id].tierId).Some?
                 && TierFor(r.policy, r.guests[id].tierId).value.id == r.guests[id].tierId
                 && (HasTier(r.policy, s.guests[id].tierId) ==> r.guests[id] == s.guests[id])
  {
    hide SendEach, MergePolicy;
  }

  /** A policy pushed as a whole, as the host does after normalising it. */
  function PatchOf(p: Policy): PolicyPatch {
    PolicyPatch(Some(p.autoJoin), Some(p.defaultTierId), Some(p.accessTiers), Some(p.showDiffs),
                Some(p.showAgentStatus), Some(p.showParticipants), Some(p.requirePromptApproval))
  }

  /** Only the policy route touches the policy. */
  lemma PolicyFrame(s: Session, a: Action)
    ensures Step(s, a).policy == if a.PolicyPushed? then MergePolicy(s.policy, a.patch) else s.policy
  {
    hide SendEach, Send, TierFor, FindTier, FilterAllowed, FilterSwitches, Watchers, Recipients, MergePolicy;
    match a
    case HostSays(m) => HostPolicyFrame(s, m);
    case _ =>
  }

  lemma HostPolicyFrame(s: Session, m: Msg)
    ensures HostMessage(s, m).policy == s.policy
  {
    hide SendEach, Send, TierFor, FindTier, FilterAllowed, Watchers, Recipients;
  }

  /** In every reachable state, if the session starts with a normal policy and every pushed one is
      normal, the lookup lands on the guest's own tier if there is one, and on the default if not. */
  lemma {:induction false} ReachableLookups(policy: Policy, actions: seq<Action>, tierId: string)
    requires Normal(policy)
    requires forall k :: 0 <= k < |actions| && actions[k].PolicyPushed? ==>
               exists p :: Normal(p) && actions[k].patch == PatchOf(p)
    ensures var p := Run(NewSession(policy), actions).policy;
            && Normal(p)
            && TierFor(p, tierId).Some?
            && TierFor(p, tierId).value.id == if HasTier(p, tierId) then tierId else p.defaultTierId
  {
    if actions != [] {
      hide Step, FindTier;
      var init, last := actions[..|actions| - 1], actions[|actions| - 1];
      ReachableLookups(policy, init, tierId);
      PolicyFrame(Run(NewSession(policy), init), last);
      if last.PolicyPushed? {
        var p :| Normal(p) && last.patch == PatchOf(p);
      }
    }
  }

  /** The relay hands a guest's inference request to the host if and only if the guest is admitted,
      its tier may use the host's providers and the host is connected; otherwise it says nothing. */
  lemma InferenceRequestForwardedIff(s: Session, id: string, m: Msg)
    requires m.kind == "inference-request" && id in s.guests
    ensures var tier, r := TierFor(s.policy, s.guests[id].tierId), GuestMessage(s, id, m);
            && r.outbox == s.outbox
            && r.inbox == s.inbox +
               (if s.guests[id].admitted && tier.Some? && tier.value.permissions.useRemoteProviders && s.hostUp
                then [Signal(m, id, s.guests[id].tierId)] else [])
  {
    hide TierFor;
  }

  predicate MayInfer(tier: Option<Tier>) {
    tier.Some? && tier.value.permissions.useRemoteProviders
  }

  /** The inference requests of a guest that the host has been sent, in order. */
  function RequestsTo(inbox: seq<HostIn>, id: string): seq<Msg> {
    if inbox == [] then [] else
      var last := inbox[|inbox| - 1];
      RequestsTo(inbox[..|inbox| - 1], id) +
        if last.Signal? && last.guestId == id && last.msg.kind == "inference-request" then [last.msg] else []
  }

  /** A request made while the host is connected. */
  function OneRequest(s: Session, a: Action, id: string): seq<Msg> {
    if a.GuestSays? && a.id == id && a.msg.kind == "inference-request" && s.hostUp then [a.msg] else []
  }

  function RequestsWhileUp(s: Session, actions: seq<Action>, id: string): seq<Msg> {
    if actions == [] then [] else
      var init := actions[..|actions| - 1];
      RequestsWhileUp(s, init, id) + OneRequest(Run(s, init), actions[|init|], id)
  }

  lemma RequestsStep(s: Session, a: Action, id: string, tier: Option<Tier>)
    requires Stands(s, id, tier)
    ensures RequestsTo(Step(s, a).inbox, id) ==
            RequestsTo(s.inbox, id) + if MayInfer(tier) then OneRequest(s, a, id) else []
  {
    hide Step, TierFor;
    var r := Step(s, a).inbox;
    RelayRuns.InboxFrame(s, a);
    if a.GuestSays? && a.id == id && a.msg.kind == "inference-request" {
      InferenceRequestForwardedIff(s, id, a.msg);
      GuestStep(s, a.id, a.msg);
    }
    if r != s.inbox {
      assert r[..|r| - 1] == s.inbox;
    }
  }

  lemma GuestStep(s: Session, id: string, m: Msg)
    ensures Step(s, GuestSays(id, m)) == GuestMessage(s, id, m)
  {
  }

  /** Over any run that leaves a guest's standing alone, the host is sent exactly the inference requests
      that the guest makes while the host is connected, in order, if its tier may use the host's
      providers, and none of them if not. */
  lemma {:induction false} InferenceRequestsOfRun(s: Session, actions: seq<Action>, id: string, tier: Option<Tier>)
    requires Stands(s, id, tier) && forall k :: 0 <= k < |actions| ==> Keeps(actions[k], id)
    ensures RequestsTo(Run(s, actions).inbox, id) ==
            RequestsTo(s.inbox, id) + if MayInfer(tier) then RequestsWhileUp(s, actions, id) else []
  {
    hide RequestsTo, Step, Stands, Keeps, MayInfer, OneRequest;
    if actions == [] {
      assert RequestsTo(s.inbox, id) + [] == RequestsTo(s.inbox, id);
    } else {
      var init := actions[..|actions| - 1];
      InferenceRequestsOfRun(s, init, id, tier);
      RunFollows(s, init, id, tier);
      RequestsStep(Run(s, init), actions[|init|], id, tier);
      var before, more, one :=
        RequestsTo(s.inbox, id), RequestsWhileUp(s, init, id), OneRequest(Run(s, init), actions[|init|], id);
      assert RequestsWhileUp(s, actions, id) == more + one;
      hide *;
      Regroup(before, more, one);
      assert before + [] + [] == before + [];
    }
  }
}
