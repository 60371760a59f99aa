/** What holds in every reachable state of the relay: the agreement of its two records of a guest,
    and the rolling history. */
module RelayRuns {
  import opened RelayPolicy
  import opened RelaySpec

  // -- Frames ----------------------------------------------------------------

  /** What no message of the host and no policy does: write to the host, let a guest in or out of
      the table, turn an admitted guest away, or lose the record of what somebody was sent. */
  ghost predicate Frame(s: Session, r: Session) {
    && r.inbox == s.inbox && r.guests.Keys == s.guests.Keys && s.outbox.Keys <= r.outbox.Keys
    && forall id :: id in s.guests && s.guests[id].admitted ==> r.guests[id].admitted
  }

  lemma SendFrame(s: Session, id: string, outs: seq<Out>)
    ensures Frame(s, Send(s, id, outs))
  {
  }

  lemma SendEachFrame(s: Session, outs: map<string, seq<Out>>)
    ensures Frame(s, SendEach(s, outs))
  {
  }

  lemma JoinDecisionFrame(s: Session, m: Msg)
    requires m.guestId in s.guests
    ensures Frame(s, JoinDecision(s, m))
  {
    hide Send, SendEach, TierFor, HasTier, FilterAllowed, Watchers;
    forall r, id, outs ensures Frame(r, Send(r, id, outs)) {
      SendFrame(r, id, outs);
    }
    forall r, outs ensures Frame(r, SendEach(r, outs)) {
      SendEachFrame(r, outs);
    }
  }

  lemma HostMessageFrame(s: Session, m: Msg)
    ensures Frame(s, HostMessage(s, m))
  {
    hide Send, SendEach, JoinDecision, TierFor, IsBroadcast, HasTier, Recipients, Admitted, Remember, InHistory;
    forall r, id, outs ensures Frame(r, Send(r, id, outs)) {
      SendFrame(r, id, outs);
    }
    forall r, outs ensures Frame(r, SendEach(r, outs)) {
      SendEachFrame(r, outs);
    }
    if m.guestId in s.guests {
      JoinDecisionFrame(s, m);
    }
  }

  lemma SetPolicyFrame(s: Session, patch: PolicyPatch)
    ensures Frame(s, SetPolicy(s, patch))
  {
    hide MergePolicy, TierUnder, PolicyNews;
  }

  /** What a handler of the relay sends the host: at most one message. What a guest offers or requests
      is passed on with its tier of that moment, while it is admitted and the host is there. */
  lemma InboxFrame(s: Session, a: Action)
    ensures var r := Step(s, a).inbox;
            r != s.inbox ==>
              && |r| == |s.inbox| + 1 && s.inbox <= r
              && (r[|s.inbox|].Signal? ==>
                    && a.GuestSays? && a.id in s.guests && s.guests[a.id].admitted && s.hostUp
                    && r[|s.inbox|] == Signal(a.msg, a.id, s.guests[a.id].tierId))
              && (r[|s.inbox|].Left? ==> a.GuestCloses? && r[|s.inbox|].guestId == a.id && s.hostUp)
  {
    hide HostMessage, SetPolicy, Send, SendEach, SendAll, TierFor, FilterSwitches, AllowedModel, AllowedReasoning;
    match a
    case HostSays(m) => HostMessageFrame(s, m);
    case PolicyPushed(patch) => SetPolicyFrame(s, patch);
    case _ =>
  }

  // -- Invariants ------------------------------------------------------------

  /** Only a broadcast touches the log and the history. */
  lemma LogFrame(s: Session, a: Action)
    ensures if a.HostSays? && IsBroadcast(a.msg)
            then Step(s, a).hostLog == s.hostLog + [a.msg] &&
                 Step(s, a).history == if InHistory(a.msg) then Remember(s.history, a.msg) else s.history
            else Step(s, a).hostLog == s.hostLog && Step(s, a).history == s.history
  {
    hide Send, SendEach, SendAll, ToHost, IsBroadcast, InHistory, Remember, Recipients, Watchers, Admitted,
      TierFor, FilterAllowed, FilterSwitches, Route, PromptFor, MergePolicy, TierUnder, HasTier;
  }

  lemma StepKeepsRolling(s: Session, a: Action)
    requires Rolling(s)
    ensures Rolling(Step(s, a))
  {
    hide Step, IsBroadcast, InHistory;
    LogFrame(s, a);
    if a.HostSays? && IsBroadcast(a.msg) {
      HistoryEventsSnoc(s.hostLog, a.msg);
    }
  }

  /** Sending keeps the agreement as long as nobody unadmitted is sent content. */
  lemma SendKeepsAgreed(s: Session, id: string, outs: seq<Out>)
    requires Agreed(s)
    requires id in s.guests && !s.guests[id].admitted ==> forall k :: 0 <= k < |outs| ==> !IsContent(outs[k])
    ensures Agreed(Send(s, id, outs))
  {
  }

  lemma SendEachKeepsAgreed(s: Session, outs: map<string, seq<Out>>)
    requires Agreed(s)
    requires forall id :: id in outs && id in s.guests && !s.guests[id].admitted ==>
               forall k :: 0 <= k < |outs[id]| ==> !IsContent(outs[id][k])
    ensures Agreed(SendEach(s, outs))
  {
    var r := SendEach(s, outs);
    forall id | id in s.guests && !s.guests[id].admitted
      ensures forall k :: 0 <= k < |r.outbox[id]| ==> !IsContent(r.outbox[id][k])
    {
      assert id in s.outbox;
      assert r.outbox[id] == if id in outs then s.outbox[id] + outs[id] else s.outbox[id];
    }
  }

  lemma NewGuestKeepsAgreed(s: Session, id: string, name: string, tierId: string, admitted: bool, outs: seq<Out>)
    requires Agreed(s) && id !in s.outbox
    requires !admitted ==> forall k :: 0 <= k < |outs| ==> !IsContent(outs[k])
    ensures var s1 := s.(sockets := s.sockets[id := Socket(tierId, admitted)],
                         guests := s.guests[id := Guest(name, tierId, admitted)]);
            Agreed(Send(s1, id, outs))
  {
  }

  lemma OpenGuestKeepsAgreed(s: Session, id: string, name: string, tierId: string)
    requires Agreed(s) && id !in s.outbox
    ensures Agreed(OpenGuest(s, id, name, tierId))
  {
    hide Agreed, SendEach, Send, FilterSwitches, TierFor;
    var s1 := s.(sockets := s.sockets[id := Socket(tierId, s.policy.autoJoin)],
                 guests := s.guests[id := Guest(name, tierId, s.policy.autoJoin)]);
    if s.policy.autoJoin {
      var outs := [Init(tierId, TierFor(s.policy, tierId), FilterSwitches(s.history, s.policy))];
      NewGuestKeepsAgreed(s, id, name, tierId, true, outs);
      var s2 := Send(s1, id, outs);
      var s3 := ToHost(s2, Joined(id, name, tierId));
      InboxKeepsAgreed(s2, s3);
      SendEachKeepsAgreed(s3, map g | g in s1.guests.Keys - {id} :: [GuestJoined(id, tierId)]);
    } else {
      NewGuestKeepsAgreed(s, id, name, tierId, false, [JoinPending]);
      var s2 := Send(s1, id, [JoinPending]);
      InboxKeepsAgreed(s2, ToHost(s2, JoinRequest(id, name, tierId)));
    }
  }

  lemma JoinDecisionKeepsAgreed(s: Session, m: Msg)
    requires Agreed(s) && m.guestId in s.guests
    ensures Agreed(JoinDecision(s, m))
  {
    hide SendEach, Send, FilterAllowed, TierFor, Watchers, HasTier;
    if !m.approved {
      SendKeepsAgreed(s, m.guestId, [JoinRejected]);
    } else {
      var guest := s.guests[m.guestId];
      var requested := if m.tierId != "" then m.tierId else guest.tierId;
      var tierId := if HasTier(s.policy, requested) then requested else s.policy.defaultTierId;
      var tier := TierFor(s.policy, tierId);
      var s1 := s.(guests := s.guests[m.guestId := guest.(tierId := tierId, admitted := true)],
                   sockets := s.sockets[m.guestId := Socket(tierId, true)]);
      var outs := [Init(tierId, tier, FilterAllowed(s.history, tier))];
      SendKeepsAgreed(s1, m.guestId, outs);
      SendEachKeepsAgreed(Send(s1, m.guestId, outs), map g | g in Watchers(s1) :: [GuestJoined(m.guestId, tierId)]);
    }
  }

  lemma AssignTierKeepsAgreed(s: Session, m: Msg)
    requires Agreed(s)
    ensures Agreed(AssignTier(s, m))
  {
    hide Send, TierFor, HasTier;
    if m.guestId in s.guests && HasTier(s.policy, m.tierId) {
      var s1 := s.(guests := s.guests[m.guestId := s.guests[m.guestId].(tierId := m.tierId)],
                   sockets := s.sockets[m.guestId := Socket(m.tierId, s.guests[m.guestId].admitted)]);
      SendKeepsAgreed(s1, m.guestId, [TierUpdated(TierFor(s.policy, m.tierId), s.policy)]);
    }
  }

  lemma BroadcastKeepsAgreed(s: Session, m: Msg)
    requires Agreed(s)
    ensures Agreed(Broadcast(s, m))
  {
    hide SendEach, Send, EventAllowed, TierFor;
    SendEachKeepsAgreed(s, map id | id in Recipients(s, m) :: [Event(Strip(m))]);
    var s1 := SendAll(s, Recipients(s, m), Event(Strip(m)));
    var s2 := s1.(history := if InHistory(m) then Remember(s.history, m) else s.history,
                  hostLog := s.hostLog + [m]);
    if m.kind == "approval-result" && m.guestId in s.guests {
      SendKeepsAgreed(s2, m.guestId, [ApprovalResult(m.approved)]);
    }
  }

  lemma RouteKeepsAgreed(s: Session, m: Msg)
    requires Agreed(s)
    ensures Agreed(Route(s, m))
  {
    hide SendEach, Send;
    if m.kind == "provider-catalog" {
      SendEachKeepsAgreed(s, map id | id in Admitted(s) :: [Catalog(m)]);
    } else if m.guestId in s.guests {
      SendKeepsAgreed(s, m.guestId, [Direct(m)]);
      SendKeepsAgreed(s, m.guestId, [Direct(m.(guestId := ""))]);
    }
  }

  lemma CloseKeepsAgreed(s: Session, id: string, name: string)
    requires Agreed(s)
    ensures Agreed(CloseGuest(s, id, name)) && Agreed(CloseHost(s))
  {
    hide SendEach, ToHost;
    SendEachKeepsAgreed(s.(hostUp := false), map g | g in s.guests.Keys :: [HostDisconnected]);
    var s1 := ToHost(s.(guests := s.guests - {id}), Left(id, name));
    SendEachKeepsAgreed(s1, map g | g in s1.guests.Keys :: [GuestLeft(id)]);
  }

  lemma SetPolicyKeepsAgreed(s: Session, patch: PolicyPatch)
    requires Agreed(s)
    ensures Agreed(SetPolicy(s, patch))
  {
    hide SendEach, MergePolicy, TierUnder, TierFor;
    var policy, all := MergePolicy(s.policy, patch), s.guests.Keys;
    var s1 := s.(policy := policy, guests := PlacedGuests(s, policy, all), sockets := PlacedSockets(s, policy, all));
    assert Agreed(s1);
    SendEachKeepsAgreed(s1, map id | id in s.guests && id in all :: PolicyNews(policy, s.guests[id].tierId));
  }

  lemma StepKeepsAgreed(s: Session, a: Action)
    requires Agreed(s) && Enabled(s, a)
    ensures Agreed(Step(s, a))
  {
    hide Agreed, OpenGuest, JoinDecision, AssignTier, Broadcast, Route, CloseGuest, CloseHost, SetPolicy,
      IsBroadcast, TierFor, AllowedModel, AllowedReasoning, PromptFor;
    match a
    case GuestOpens(id, name, tierId) => OpenGuestKeepsAgreed(s, id, name, tierId);
    case GuestCloses(id, name) => CloseKeepsAgreed(s, id, name);
    case HostCloses => CloseKeepsAgreed(s, "", "");
    case PolicyPushed(patch) => SetPolicyKeepsAgreed(s, patch);
    case HostSays(m) =>
      BroadcastKeepsAgreed(s, m);
      RouteKeepsAgreed(s, m);
      AssignTierKeepsAgreed(s, m);
      if m.guestId in s.guests {
        JoinDecisionKeepsAgreed(s, m);
      }
    case HostOpens => InboxKeepsAgreed(s, Step(s, a));
    case GuestSays(id, m) => InboxKeepsAgreed(s, Step(s, a));
  }

  lemma InboxKeepsAgreed(s: Session, r: Session)
    requires Agreed(s) && r == s.(inbox := r.inbox, hostUp := r.hostUp)
    ensures Agreed(r)
  {
  }

  /** In every reachable state the guest table agrees with the sockets, nobody unadmitted has
      been sent content, and the history is the last 200 history events of the host. */
  lemma {:induction false} ReachableStates(policy: Policy, actions: seq<Action>)
    requires Legal(NewSession(policy), actions)
    ensures Agreed(Run(NewSession(policy), actions)) && Rolling(Run(NewSession(policy), actions))
  {
    hide Agreed, Rolling, Step, Enabled;
    if actions == [] {
      NewSessionIsFine(policy);
    } else {
      var init := actions[..|actions| - 1];
      assert forall k :: 0 <= k < |init| ==> init[..k] == actions[..k];
      ReachableStates(policy, init);
      StepKeepsAgreed(Run(NewSession(policy), init), actions[|init|]);
      StepKeepsRolling(Run(NewSession(policy), init), actions[|init|]);
    }
  }

  lemma NewSessionIsFine(policy: Policy)
    ensures Agreed(NewSession(policy)) && Rolling(NewSession(policy))
  {
  }
}
