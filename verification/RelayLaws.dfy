/** What each handler of the relay does, seen from each place it can change: what one guest is sent,
    what the host is sent, and what becomes of the tables, the policy and the history. */
module RelayLaws {
  import opened Options
  import opened Sequences
  import opened RelayPolicy
  import opened RelaySpec

  // -- Messages of the host that are broadcast -------------------------------

  /** The guest is admitted, judged by this tier, and not among those reached directly. */
  predicate Reachable(s: Session, m: Msg, id: string, tier: Tier) {
    && id in s.guests && s.guests[id].admitted && id !in m.excludeGuestIds
    && TierFor(s.policy, s.guests[id].tierId) == Some(tier)
  }

  ghost predicate Unreachable(s: Session, m: Msg, id: string) {
    forall tier :: !Reachable(s, m, id, tier)
  }

  lemma BroadcastAdds(s: Session, m: Msg, id: string)
    requires IsBroadcast(m)
    ensures Log(HostMessage(s, m), id) ==
            Log(s, id)
            + (if id in Recipients(s, m) then [Event(Strip(m))] else [])
            + (if m.kind == "approval-result" && id == m.guestId && id in s.guests
               then [ApprovalResult(m.approved)] else [])
  {
    hide Recipients, IsBroadcast, InHistory, Remember;
  }

  lemma RecipientIff(s: Session, m: Msg, id: string)
    ensures (exists tier :: Reachable(s, m, id, tier) && EventAllowed(m, Some(tier))) <==> id in Recipients(s, m)
  {
    if id in s.guests {
      var t := TierFor(s.policy, s.guests[id].tierId);
      hide TierFor;
      assert t.None? ==> !EventAllowed(m, t);
      hide EventAllowed;
      if t.Some? && s.guests[id].admitted && id !in m.excludeGuestIds {
        assert Reachable(s, m, id, t.value);
      }
    }
  }

  /** A guest is sent a chat line, a diff, an agent's status or a log line, with the exclusions taken
      off, exactly if it is admitted, not excluded, and its tier's own permission for that kind says so. */
  lemma WhoSeesWhat(s: Session, m: Msg, id: string, tier: Tier)
    requires Reachable(s, m, id, tier) && m.kind in ["chat", "diff", "agent-status", "log"]
    ensures var before, after, shown := Log(s, id), Log(HostMessage(s, m), id), [Event(m.(excludeGuestIds := []))];
            var p := tier.permissions;
            && (m.kind == "chat" ==> after == before + if p.viewChat then shown else [])
            && (m.kind == "agent-status" ==> after == before + if p.viewAgentStatus then shown else [])
            && (m.kind == "log" ==> after == before + if p.viewSystemMessages then shown else [])
            && (m.kind == "diff" && p.readPaths == [] ==> after == before + if p.viewDiffs then shown else [])
            && (m.kind == "diff" && p.readPaths != [] ==>
                  after == before + if p.viewDiffs && PathAllowed(m.path, p.readPaths) then shown else [])
  {
    BroadcastAdds(s, m, id);
    hide HostMessage, Log, TierFor, PathAllowed;
    EverythingAllowed(m.path);
  }

  lemma EverythingAllowed(path: string)
    ensures PathAllowed(path, ["**"])
  {
    assert "**" in ["**"];
  }

  /** Of those four kinds nobody else is sent anything. */
  lemma NobodyElseSees(s: Session, m: Msg, id: string)
    requires Unreachable(s, m, id) && m.kind in ["chat", "diff", "agent-status", "log"]
    ensures Log(HostMessage(s, m), id) == Log(s, id)
  {
    BroadcastAdds(s, m, id);
    RecipientIff(s, m, id);
  }

  /** Any other message is shown to every admitted guest that is not excluded and has a tier; an
      approval is told to the guest it names besides. */
  lemma OtherBroadcasts(s: Session, m: Msg, id: string)
    requires m.kind !in ["chat", "diff", "agent-status", "log", "provider-catalog"]
    requires m.guestId == "" || m.kind !in
             ["rtc-answer", "rtc-ice", "inference-event", "inference-done", "inference-error", "join-decision",
              "assign-tier"]
    ensures Log(HostMessage(s, m), id) ==
            Log(s, id)
            + (if Unreachable(s, m, id) then [] else [Event(m.(excludeGuestIds := []))])
            + (if m.kind == "approval-result" && id == m.guestId && id in s.guests
               then [ApprovalResult(m.approved)] else [])
  {
    OtherKinds(m);
    hide HostMessage, Log, Reachable, Recipients, IsBroadcast, EventAllowed;
    BroadcastAdds(s, m, id);
    RecipientIff(s, m, id);
    if tier :| Reachable(s, m, id, tier) {
      assert EventAllowed(m, Some(tier));
    }
  }

  lemma OtherKinds(m: Msg)
    requires m.kind !in ["chat", "diff", "agent-status", "log", "provider-catalog"]
    requires m.guestId == "" || m.kind !in
             ["rtc-answer", "rtc-ice", "inference-event", "inference-done", "inference-error", "join-decision",
              "assign-tier"]
    ensures IsBroadcast(m) && forall tier :: EventAllowed(m, Some(tier))
  {
    hide PathAllowed;
  }

  /** A broadcast is logged, and kept for late comers if it is one of three kinds; the 201st entry drops
      the first. It changes nothing else. */
  lemma BroadcastLeaves(s: Session, m: Msg)
    requires m.kind != "provider-catalog"
    requires m.guestId == "" || m.kind !in
             ["rtc-answer", "rtc-ice", "inference-event", "inference-done", "inference-error", "join-decision",
              "assign-tier"]
    ensures var r := HostMessage(s, m);
            && r == s.(outbox := r.outbox, history := r.history, hostLog := s.hostLog + [m])
            && (m.kind !in ["chat", "diff", "agent-status"] ==> r.history == s.history)
            && (m.kind in ["chat", "diff", "agent-status"] && |s.history| < 200 ==> r.history == s.history + [m])
            && (m.kind in ["chat", "diff", "agent-status"] && |s.history| >= 200 ==>
                  r.history == s.history[1..] + [m])
  {
    hide TierFor, PathAllowed, Recipients, SendEach, Send;
  }

  // -- Messages of the host that are routed ----------------------------------

  /** Events and ends of an inference go to the guest they name, without its id, and to no one else. */
  lemma InferenceGoesToOne(s: Session, m: Msg, id: string)
    requires m.kind in ["inference-event", "inference-done", "inference-error"] && m.guestId != ""
    ensures Log(HostMessage(s, m), id) ==
            Log(s, id) + if id == m.guestId && id in s.guests then [Direct(m.(guestId := ""))] else []
    ensures HostMessage(s, m) == s.(outbox := HostMessage(s, m).outbox)
  {
  }

  /** Signalling goes to the guest it names, as it is, and to no one else. */
  lemma SignallingGoesToOne(s: Session, m: Msg, id: string)
    requires m.kind in ["rtc-answer", "rtc-ice"] && m.guestId != ""
    ensures Log(HostMessage(s, m), id) ==
            Log(s, id) + if id == m.guestId && id in s.guests then [Direct(m)] else []
    ensures HostMessage(s, m) == s.(outbox := HostMessage(s, m).outbox)
  {
  }

  /** The catalog goes to every admitted guest and to no one else, whomever it names or excludes. */
  lemma CatalogGoesToAdmitted(s: Session, m: Msg, id: string)
    requires m.kind == "provider-catalog"
    ensures Log(HostMessage(s, m), id) ==
            Log(s, id) + if id in s.guests && s.guests[id].admitted then [Catalog(m)] else []
    ensures HostMessage(s, m) == s.(outbox := HostMessage(s, m).outbox)
  {
  }

  // -- Decisions of the host -------------------------------------------------

  /** A rejected guest is told so, and nothing else happens; likewise if the guest is not there. */
  lemma Rejection(s: Session, m: Msg, id: string)
    requires m.kind == "join-decision" && m.guestId != "" && (m.guestId in s.guests ==> !m.approved)
    ensures Log(HostMessage(s, m), id) ==
            Log(s, id) + if id == m.guestId && id in s.guests then [JoinRejected] else []
    ensures HostMessage(s, m) == s.(outbox := HostMessage(s, m).outbox)
  {
  }

  /** The tier a guest is admitted to: the one decided, else the one it asked for; the default if the
      policy lacks it. */
  function GrantedTier(s: Session, m: Msg): string
    requires m.guestId in s.guests
  {
    var wanted := if m.tierId == "" then s.guests[m.guestId].tierId else m.tierId;
    if exists t :: t in s.policy.accessTiers && t.id == wanted then wanted else s.policy.defaultTierId
  }

  lemma SendAddsLog(s: Session, g: string, outs: seq<Out>, id: string)
    ensures Log(Send(s, g, outs), id) == Log(s, id) + if id == g then outs else []
  {
  }

  lemma SendAllAddsLog(s: Session, ids: set<string>, out: Out, id: string)
    ensures Log(SendAll(s, ids, out), id) == Log(s, id) + if id in ids then [out] else []
  {
  }

  /** The tables after an admission. */
  function Entered(s: Session, m: Msg): Session
    requires m.guestId in s.guests
  {
    var g, tierId := m.guestId, GrantedTier(s, m);
    s.(guests := s.guests[g := Guest(s.guests[g].name, tierId, true)], sockets := s.sockets[g := Socket(tierId, true)])
  }

  lemma AdmissionStates(s: Session, m: Msg)
    requires m.kind == "join-decision" && m.guestId != "" && m.guestId in s.guests && m.approved
    ensures var s1, tierId := Entered(s, m), GrantedTier(s, m);
            var tier := TierFor(s.policy, tierId);
            HostMessage(s, m) ==
            SendAll(Send(s1, m.guestId, [Init(tierId, tier, FilterAllowed(s.history, tier))]), Watchers(s1),
                    GuestJoined(m.guestId, tierId))
  {
    hide TierFor, FilterAllowed, HasTier, Send, SendAll, Watchers;
    var wanted := if m.tierId != "" then m.tierId else s.guests[m.guestId].tierId;
    TierIsThere(s.policy, wanted);
  }

  /** An admitted guest is on the granted tier in both tables, keeping its name; it gets the history its
      tier allows, and then, as every admitted guest whose tier shows participants, the news of it. */
  lemma Admission(s: Session, m: Msg, id: string)
    requires m.kind == "join-decision" && m.guestId != "" && m.guestId in s.guests && m.approved
    ensures var r, g, tierId := HostMessage(s, m), m.guestId, GrantedTier(s, m);
            var tier := TierFor(s.policy, tierId);
            && r == s.(outbox := r.outbox, guests := r.guests, sockets := r.sockets)
            && r.guests == s.guests[g := Guest(s.guests[g].name, tierId, true)]
            && r.sockets == s.sockets[g := Socket(tierId, true)]
            && Log(r, id) ==
               Log(s, id)
               + (if id == g then [Init(tierId, tier, FilterAllowed(s.history, tier))] else [])
               + (if id in r.guests && r.guests[id].admitted &&
                     exists t :: TierFor(s.policy, r.guests[id].tierId) == Some(t) && t.permissions.viewParticipants
                  then [GuestJoined(g, tierId)] else [])
  {
    AdmissionStates(s, m);
    hide HostMessage, GrantedTier, TierFor, FilterAllowed, Log, Send, SendAll, Watchers;
    var s1, tierId := Entered(s, m), GrantedTier(s, m);
    var init := Init(tierId, TierFor(s.policy, tierId), FilterAllowed(s.history, TierFor(s.policy, tierId)));
    SendAddsLog(s1, m.guestId, [init], id);
    SendAllAddsLog(Send(s1, m.guestId, [init]), Watchers(s1), GuestJoined(m.guestId, tierId), id);
    WatcherIff(s1, id);
  }

  lemma WatcherIff(s: Session, id: string)
    ensures id in Watchers(s) <==>
            id in s.guests && s.guests[id].admitted &&
            exists t :: TierFor(s.policy, s.guests[id].tierId) == Some(t) && t.permissions.viewParticipants
  {
    hide TierFor;
  }

  lemma TierIsThere(policy: Policy, id: string)
    ensures HasTier(policy, id) <==> exists t :: t in policy.accessTiers && t.id == id
  {
    var found := FindTier(policy.accessTiers, id);
    assert found.Some? ==> found.value in policy.accessTiers;
  }

  /** Assigning a tier that exists moves the guest in both tables and tells it alone; admission stays. */
  lemma Assignment(s: Session, m: Msg, id: string)
    requires m.kind == "assign-tier" && m.guestId != ""
    ensures var r, g := HostMessage(s, m), m.guestId;
            if g in s.guests && (exists t :: t in s.policy.accessTiers && t.id == m.tierId) then
              && r == s.(outbox := r.outbox, guests := r.guests, sockets := r.sockets)
              && r.guests == s.guests[g := Guest(s.guests[g].name, m.tierId, s.guests[g].admitted)]
              && r.sockets == s.sockets[g := Socket(m.tierId, s.guests[g].admitted)]
              && Log(r, id) ==
                 Log(s, id) + if id == g then [TierUpdated(TierFor(s.policy, m.tierId), s.policy)] else []
            else r == s
  {
    hide TierFor;
    TierIsThere(s.policy, m.tierId);
  }

  // -- The filters -----------------------------------------------------------

  lemma {:induction false} FilterAllowedAppend(a: seq<Msg>, b: seq<Msg>, tier: Option<Tier>)
    ensures FilterAllowed(a + b, tier) == FilterAllowed(a, tier) + FilterAllowed(b, tier)
    decreases |a|
  {
    hide EventAllowed;
    if a == [] {
      assert a + b == b;
    } else {
      assert (a + b)[1..] == a[1..] + b;
      FilterAllowedAppend(a[1..], b, tier);
      var first := if EventAllowed(a[0], tier) then [a[0]] else [];
      assert FilterAllowed(a, tier) == first + FilterAllowed(a[1..], tier);
      assert FilterAllowed(a + b, tier) == first + FilterAllowed(a[1..] + b, tier);
      hide *;
      Regroup(first, FilterAllowed(a[1..], tier), FilterAllowed(b, tier));
    }
  }

  /** Of the history a guest is shown each entry, in order (`FilterAllowedAppend`), that its tier's
      permission for its kind allows, and the whole of the others; nothing without a tier. */
  lemma FilterAllowedIs(m: Msg, tier: Option<Tier>)
    ensures tier.None? ==> FilterAllowed([m], tier) == []
    ensures tier.Some? ==>
              var p := tier.value.permissions;
              && (m.kind == "chat" ==> FilterAllowed([m], tier) == if p.viewChat then [m] else [])
              && (m.kind == "agent-status" ==> FilterAllowed([m], tier) == if p.viewAgentStatus then [m] else [])
              && (m.kind == "diff" ==>
                    FilterAllowed([m], tier) ==
                    if p.viewDiffs && (p.readPaths == [] || PathAllowed(m.path, p.readPaths)) then [m] else [])
    ensures FilterAllowed([], tier) == []
  {
    hide PathAllowed;
    EverythingAllowed(m.path);
    assert [m][1..] == [];
  }

  lemma {:induction false} FilterSwitchesAppend(a: seq<Msg>, b: seq<Msg>, policy: Policy)
    ensures FilterSwitches(a + b, policy) == FilterSwitches(a, policy) + FilterSwitches(b, policy)
    decreases |a|
  {
    if a == [] {
      assert a + b == b;
    } else {
      assert (a + b)[1..] == a[1..] + b;
      FilterSwitchesAppend(a[1..], b, policy);
      var first := FilterSwitches([a[0]], policy);
      FilterSwitchesIs(a[0], policy);
      assert FilterSwitches(a, policy) == first + FilterSwitches(a[1..], policy);
      assert FilterSwitches(a + b, policy) == first + FilterSwitches(a[1..] + b, policy);
      hide *;
      Regroup(first, FilterSwitches(a[1..], policy), FilterSwitches(b, policy));
    }
  }

  /** On automatic admission chat is always shown, and diffs and statuses as the session has them. */
  lemma FilterSwitchesIs(m: Msg, policy: Policy)
    ensures m.kind == "diff" ==> FilterSwitches([m], policy) == if policy.showDiffs then [m] else []
    ensures m.kind == "agent-status" ==> FilterSwitches([m], policy) == if policy.showAgentStatus then [m] else []
    ensures m.kind !in ["diff", "agent-status"] ==> FilterSwitches([m], policy) == [m]
    ensures FilterSwitches([], policy) == []
  {
    assert [m][1..] == [];
  }

  // -- Connections -----------------------------------------------------------

  /** A host that connects is told of every guest. */
  lemma HostArrives(s: Session)
    ensures Step(s, HostOpens) == s.(hostUp := true, inbox := s.inbox + [GuestList(s.guests)])
  {
  }

  /** A host that goes is reported to every guest, admitted or not. */
  lemma HostLeaves(s: Session, id: string)
    ensures var r := Step(s, HostCloses);
            && r == s.(hostUp := false, outbox := r.outbox)
            && Log(r, id) == Log(s, id) + if id in s.guests then [HostDisconnected] else []
  {
  }

  /** What a message to the host adds: one entry if it is connected, and nothing if not. */
  function Told(s: Session, x: HostIn): seq<HostIn> {
    if s.hostUp then s.inbox + [x] else s.inbox
  }

  /** Without automatic admission a guest is entered as waiting, told to wait, and announced to the host;
      nobody else hears of it. */
  lemma GuestAsks(s: Session, g: string, name: string, tierId: string, id: string)
    requires !s.policy.autoJoin
    ensures var r := Step(s, GuestOpens(g, name, tierId));
            && r == s.(guests := s.guests[g := Guest(name, tierId, false)],
                       sockets := s.sockets[g := Socket(tierId, false)],
                       outbox := r.outbox, inbox := Told(s, JoinRequest(g, name, tierId)))
            && Log(r, id) == Log(s, id) + if id == g then [JoinPending] else []
  {
  }

  /** With it the guest is admitted at once to the tier of its invitation, gets the history the switches
      leave, and is announced to the host, and to every other guest if the session shows participants. */
  lemma GuestEnters(s: Session, g: string, name: string, tierId: string, id: string)
    requires s.policy.autoJoin
    ensures var r := Step(s, GuestOpens(g, name, tierId));
            && r == s.(guests := s.guests[g := Guest(name, tierId, true)],
                       sockets := s.sockets[g := Socket(tierId, true)],
                       outbox := r.outbox, inbox := Told(s, Joined(g, name, tierId)))
            && Log(r, id) ==
               Log(s, id)
               + (if id == g then [Init(tierId, TierFor(s.policy, tierId), FilterSwitches(s.history, s.policy))] else [])
               + (if id != g && id in s.guests && s.policy.showParticipants then [GuestJoined(g, tierId)] else [])
  {
    hide TierFor, FilterSwitches;
  }

  /** A guest that goes is taken off the table and reported to the host and to everyone who stays. */
  lemma GuestLeaves(s: Session, g: string, name: string, id: string)
    ensures var r := Step(s, GuestCloses(g, name));
            && r == s.(guests := s.guests - {g}, outbox := r.outbox, inbox := Told(s, Left(g, name)))
            && Log(r, id) == Log(s, id) + if id in s.guests && id != g then [GuestLeft(g)] else []
  {
  }

  // -- Messages of a guest ---------------------------------------------------

  /** A guest's message does nothing but reach the host, with the guest's id and tier: signalling of any
      admitted guest, inference messages if its tier may use the host's providers; of other kinds only
      prompts do, which are rewritten. */
  lemma GuestMessageGoes(s: Session, g: string, m: Msg)
    ensures var r := Step(s, GuestSays(g, m));
            var tier := if g in s.guests && s.guests[g].admitted then TierFor(s.policy, s.guests[g].tierId) else None;
            && r == s.(inbox := r.inbox)
            && (m.kind in ["rtc-offer", "rtc-ice"] ==>
                  r.inbox == if g in s.guests && s.guests[g].admitted
                             then Told(s, Signal(m, g, s.guests[g].tierId)) else s.inbox)
            && (m.kind in ["inference-request", "inference-cancel"] ==>
                  r.inbox == if tier.Some? && tier.value.permissions.useRemoteProviders
                             then Told(s, Signal(m, g, s.guests[g].tierId)) else s.inbox)
            && (m.kind == "guest-prompt" ==>
                  r.inbox == if tier.Some? && tier.value.permissions.submitPrompts
                             then Told(s, PromptFor(g, s.guests[g], tier.value, m)) else s.inbox)
            && (m.kind !in ["rtc-offer", "rtc-ice", "inference-request", "inference-cancel", "guest-prompt"] ==> r == s)
  {
    hide TierFor, PromptFor;
  }

  // -- The policy route ------------------------------------------------------

  /** What the session's policy becomes: each part as pushed, or else as it was; approval of prompts is
      always required. */
  lemma PushedPolicyIs(s: Session, patch: PolicyPatch)
    ensures var p, q := s.policy, Step(s, PolicyPushed(patch)).policy;
            && (q.autoJoin <==> patch.autoJoin == Some(true) || (patch.autoJoin.None? && p.autoJoin))
            && (patch.defaultTierId.Some? ==> q.defaultTierId == patch.defaultTierId.value)
            && (patch.defaultTierId.None? ==> q.defaultTierId == p.defaultTierId)
            && (patch.accessTiers.Some? ==> q.accessTiers == patch.accessTiers.value)
            && (patch.accessTiers.None? ==> q.accessTiers == p.accessTiers)
            && (q.showDiffs <==> patch.showDiffs == Some(true) || (patch.showDiffs.None? && p.showDiffs))
            && (q.showAgentStatus <==>
                  patch.showAgentStatus == Some(true) || (patch.showAgentStatus.None? && p.showAgentStatus))
            && (q.showParticipants <==>
                  patch.showParticipants == Some(true) || (patch.showParticipants.None? && p.showParticipants))
            && q.requirePromptApproval
  {
    hide PlacedGuests, PlacedSockets, PolicyNews, SendEach;
  }

  /** Every guest, admitted or not, is told the policy and then its tier under it: its own if the policy
      has it, the default if not; both tables follow, and nothing else changes. */
  lemma PushedPolicyReaches(s: Session, patch: PolicyPatch, id: string)
    requires s.guests.Keys <= s.sockets.Keys
    ensures var r := Step(s, PolicyPushed(patch));
            && r == s.(policy := r.policy, guests := r.guests, sockets := r.sockets, outbox := r.outbox)
            && r.guests.Keys == s.guests.Keys && r.sockets.Keys == s.sockets.Keys
            && (id !in s.guests ==> Log(r, id) == Log(s, id))
            && (id !in s.guests && id in s.sockets ==> r.sockets[id] == s.sockets[id])
            && (id in s.guests ==>
                  var was, tierId := s.guests[id], r.guests[id].tierId;
                  && r.guests[id] == was.(tierId := tierId) && r.sockets[id] == s.sockets[id].(tierId := tierId)
                  && ((exists t :: t in r.policy.accessTiers && t.id == was.tierId) ==> tierId == was.tierId)
                  && (!(exists t :: t in r.policy.accessTiers && t.id == was.tierId) ==>
                        tierId == r.policy.defaultTierId)
                  && Log(r, id) ==
                     Log(s, id) + [PolicyUpdated(r.policy), TierUpdated(TierFor(r.policy, tierId), r.policy)])
  {
    hide MergePolicy, TierFor;
    if id in s.guests {
      TierIsThere(MergePolicy(s.policy, patch), s.guests[id].tierId);
    }
  }
}
