/** The relay's session object and its handlers, in the server's own imperative form; each one
    is proved to make the transition of `RelaySpec`. */
module RelayServer {
  import opened RelayPolicy
  import opened RelaySpec

  /** Sending to one more guest. */
  lemma SendAllOneMore(s: Session, sent: set<string>, id: string, out: Out)
    requires id !in sent
    ensures SendAll(s, sent + {id}, out) == Send(SendAll(s, sent, out), id, [out])
  {
    var l, r := SendAll(s, sent + {id}, out).outbox, Send(SendAll(s, sent, out), id, [out]).outbox;
    assert l.Keys == r.Keys;
    assert forall g :: g in l ==> l[g] == r[g];
  }

  lemma SendAllNobody(s: Session, out: Out)
    ensures SendAll(s, {}, out) == s
  {
    assert SendAll(s, {}, out).outbox == s.outbox;
  }

  /** The loop body of the policy route, for one guest. */
  function PlaceGuest(s: Session, id: string): Session
    requires id in s.guests && id in s.sockets
  {
    var tierId := TierUnder(s.policy, s.guests[id].tierId);
    var s1 := s.(guests := s.guests[id := s.guests[id].(tierId := tierId)],
                 sockets := s.sockets[id := s.sockets[id].(tierId := tierId)]);
    Send(s1, id, PolicyNews(s.policy, s.guests[id].tierId))
  }

  lemma PlacedGuestsStep(s: Session, policy: Policy, placed: set<string>, id: string)
    requires id in s.guests
    ensures PlacedGuests(s, policy, placed + {id}) ==
            PlacedGuests(s, policy, placed)[id := s.guests[id].(tierId := TierUnder(policy, s.guests[id].tierId))]
  {
    hide TierUnder;
  }

  lemma PlacedSocketsStep(s: Session, policy: Policy, placed: set<string>, id: string)
    requires id in s.guests && id in s.sockets
    ensures PlacedSockets(s, policy, placed + {id}) ==
            PlacedSockets(s, policy, placed)[id := s.sockets[id].(tierId := TierUnder(policy, s.guests[id].tierId))]
  {
    hide TierUnder;
  }

  lemma SendEachOneMore(s: Session, t: Session, outs: map<string, seq<Out>>, id: string, news: seq<Out>)
    requires s.outbox == t.outbox && id !in outs
    ensures SendEach(t, outs[id := news]).outbox == Send(SendEach(s, outs), id, news).outbox
  {
    var l, r := SendEach(t, outs[id := news]).outbox, Send(SendEach(s, outs), id, news).outbox;
    assert l.Keys == r.Keys;
    assert forall g :: g in l ==> l[g] == r[g];
  }

  lemma PlaceOneMore(s: Session, policy: Policy, placed: set<string>, id: string)
    requires id in s.guests && id in s.sockets && id !in placed
    ensures PlaceGuests(s, policy, placed + {id}) == PlaceGuest(PlaceGuests(s, policy, placed), id)
  {
    hide TierUnder, PolicyNews, SendEach, Send;
    var p := PlaceGuests(s, policy, placed);
    assert p.guests[id] == s.guests[id] && p.sockets[id] == s.sockets[id];
    PlacedGuestsStep(s, policy, placed, id);
    PlacedSocketsStep(s, policy, placed, id);
    var outs := map g | g in s.guests && g in placed :: PolicyNews(policy, s.guests[g].tierId);
    var more := map g | g in s.guests && g in placed + {id} :: PolicyNews(policy, s.guests[g].tierId);
    var news := PolicyNews(policy, s.guests[id].tierId);
    assert more == outs[id := news];
    hide PlacedGuests, PlacedSockets;
    var before := s.(policy := policy, guests := PlacedGuests(s, policy, placed),
                    sockets := PlacedSockets(s, policy, placed));
    var after := s.(policy := policy, guests := PlacedGuests(s, policy, placed + {id}),
                    sockets := PlacedSockets(s, policy, placed + {id}));
    SendEachOneMore(before, after, outs, id, news);
    SendOutboxOnly(SendEach(before, outs), after.(outbox := SendEach(before, outs).outbox), id, news);
  }

  lemma SendOutboxOnly(s: Session, t: Session, id: string, news: seq<Out>)
    requires s.outbox == t.outbox
    ensures Send(s, id, news).outbox == Send(t, id, news).outbox
  {
  }

  lemma PlaceNobody(s: Session, policy: Policy)
    ensures PlaceGuests(s, policy, {}) == s.(policy := policy)
  {
    hide TierUnder, PolicyNews;
    var r := PlaceGuests(s, policy, {});
    assert r.guests == s.guests;
    assert r.sockets == s.sockets;
    assert r.outbox == s.outbox;
  }

  class RelaySession {
    var policy: Policy
    var guests: map<string, Guest>
    var sockets: map<string, Socket>
    var history: seq<Msg>
    var hostUp: bool
    var outbox: map<string, seq<Out>>
    var inbox: seq<HostIn>
    ghost var hostLog: seq<Msg>

    ghost function State(): Session
      reads this
    {
      Session(policy, guests, sockets, history, hostUp, outbox, inbox, hostLog)
    }

    constructor (policy: Policy)
      ensures State() == NewSession(policy)
    {
      this.policy, guests, sockets, history, hostUp := policy, map[], map[], [], false;
      outbox, inbox, hostLog := map[], [], [];
    }

    method SendTo(id: string, out: Out)
      modifies this`outbox
      ensures State() == Send(old(State()), id, [out])
    {
      outbox := outbox[id := (if id in outbox then outbox[id] else []) + [out]];
    }

    /** `hostWs?.send(...)` */
    method SendToHost(x: HostIn)
      modifies this`inbox
      ensures State() == ToHost(old(State()), x)
    {
      if hostUp {
        inbox := inbox + [x];
      }
    }

    /** A `guests.forEach` that sends one message to the guests it selects. */
    method SendToEach(ids: set<string>, out: Out)
      modifies this`outbox
      ensures State() == SendAll(old(State()), ids, out)
    {
      hide SendAll, Send;
      ghost var s := State();
      var todo := ids;
      SendAllNobody(s, out);
      assert ids - todo == {};
      while todo != {}
        invariant todo <= ids
        invariant State() == SendAll(s, ids - todo, out)
        decreases todo
      {
        var id :| id in todo;
        SendAllOneMore(s, ids - todo, id, out);
        assert (ids - todo) + {id} == ids - (todo - {id});
        SendTo(id, out);
        todo := todo - {id};
      }
      assert ids - todo == ids;
    }

    method HostOpens()
      modifies this`hostUp, this`inbox
      ensures State() == OpenHost(old(State()))
    {
      hostUp := true;
      SendToHost(GuestList(guests));
    }

    method HostCloses()
      modifies this`hostUp, this`outbox
      ensures State() == CloseHost(old(State()))
    {
      hostUp := false;
      SendToEach(guests.Keys, HostDisconnected);
    }

    method GuestOpens(id: string, name: string, tierId: string)
      modifies this`sockets, this`guests, this`outbox, this`inbox
      ensures State() == OpenGuest(old(State()), id, name, tierId)
    {
      hide Send, SendAll, ToHost, TierFor, FilterSwitches;
      var admitted := policy.autoJoin;
      sockets := sockets[id := Socket(tierId, admitted)];
      guests := guests[id := Guest(name, tierId, admitted)];
      if !admitted {
        SendTo(id, JoinPending);
        SendToHost(JoinRequest(id, name, tierId));
        return;
      }
      SendTo(id, Init(tierId, TierFor(policy, tierId), FilterSwitches(history, policy)));
      SendToHost(Joined(id, name, tierId));
      if policy.showParticipants {
        SendToEach(guests.Keys - {id}, GuestJoined(id, tierId));
      }
    }

    method GuestCloses(id: string, name: string)
      modifies this`guests, this`outbox, this`inbox
      ensures State() == CloseGuest(old(State()), id, name)
    {
      hide SendAll, ToHost;
      guests := guests - {id};
      SendToHost(Left(id, name));
      SendToEach(guests.Keys, GuestLeft(id));
    }

    method HostSays(m: Msg)
      modifies this`guests, this`sockets, this`outbox, this`history, this`hostLog
      ensures State() == HostMessage(old(State()), m)
    {
      hide Send, SendAll, Broadcast, TierFor, HasTier, FilterAllowed, Watchers;
      if m.kind in ["rtc-answer", "rtc-ice"] && m.guestId != "" {
        if m.guestId in guests {
          SendTo(m.guestId, Direct(m));
        }
      } else if m.kind in ["inference-event", "inference-done", "inference-error"] && m.guestId != "" {
        if m.guestId in guests {
          SendTo(m.guestId, Direct(m.(guestId := "")));
        }
      } else if m.kind == "provider-catalog" {
        SendToEach(Admitted(Snapshot()), Catalog(m));
      } else if m.kind == "join-decision" && m.guestId != "" {
        if m.guestId in guests {
          DecideJoin(m);
        }
      } else if m.kind == "assign-tier" && m.guestId != "" {
        if m.guestId in guests && HasTier(policy, m.tierId) {
          guests := guests[m.guestId := guests[m.guestId].(tierId := m.tierId)];
          sockets := sockets[m.guestId := Socket(m.tierId, guests[m.guestId].admitted)];
          SendTo(m.guestId, TierUpdated(TierFor(policy, m.tierId), policy));
        }
      } else {
        BroadcastToGuests(m);
      }
    }

    /** The session as a value. */
    function Snapshot(): (s: Session)
      reads this
      ensures s.policy == policy && s.guests == guests
    {
      Session(policy, guests, sockets, history, hostUp, outbox, inbox, [])
    }

    method DecideJoin(m: Msg)
      requires m.guestId in guests
      modifies this`guests, this`sockets, this`outbox
      ensures State() == JoinDecision(old(State()), m)
    {
      hide Send, SendAll, TierFor, HasTier, FilterAllowed;
      var guest := guests[m.guestId];
      if !m.approved {
        SendTo(m.guestId, JoinRejected);
        return;
      }
      var requested := if m.tierId != "" then m.tierId else guest.tierId;
      var tierId := if HasTier(policy, requested) then requested else policy.defaultTierId;
      guests := guests[m.guestId := guest.(tierId := tierId, admitted := true)];
      sockets := sockets[m.guestId := Socket(tierId, true)];
      var tier := TierFor(policy, tierId);
      SendTo(m.guestId, Init(tierId, tier, FilterAllowed(history, tier)));
      SendToEach(Watchers(Snapshot()), GuestJoined(m.guestId, tierId));
    }

    /** Host → all guests the event is for, and the rolling history. */
    method BroadcastToGuests(m: Msg)
      modifies this`outbox, this`history, this`hostLog
      ensures State() == Broadcast(old(State()), m)
    {
      hide SendAll, Send, EventAllowed, TierFor;
      ghost var s, out := State(), Event(Strip(m));
      var todo := guests.Keys;
      SendAllNobody(s, out);
      ghost var sent: set<string> := {};
      while todo != {}
        invariant todo <= guests.Keys
        invariant sent == Recipients(s, m) - todo
        invariant State() == SendAll(s, sent, out)
        decreases todo
      {
        var id :| id in todo;
        var g := guests[id];
        if id !in m.excludeGuestIds && g.admitted && EventAllowed(m, TierFor(policy, g.tierId)) {
          SendAllOneMore(s, sent, id, out);
          SendTo(id, Event(Strip(m)));
          sent := sent + {id};
        }
        todo := todo - {id};
      }
      assert sent == Recipients(s, m);
      if InHistory(m) {
        history := history + [m];
        if |history| > HISTORY_LIMIT {
          history := history[1..];
        }
      }
      hostLog := hostLog + [m];
      if m.kind == "approval-result" && m.guestId in guests {
        SendTo(m.guestId, ApprovalResult(m.approved));
      }
    }

    method GuestSays(id: string, m: Msg)
      modifies this`inbox
      ensures State() == GuestMessage(old(State()), id, m)
    {
      hide ToHost, TierFor, AllowedModel, AllowedReasoning;
      if id !in guests || !guests[id].admitted {
        return;
      }
      var guest := guests[id];
      var tier := TierFor(policy, guest.tierId);
      if m.kind in ["rtc-offer", "rtc-ice"] {
        SendToHost(Signal(m, id, guest.tierId));
        return;
      }
      if m.kind in ["inference-request", "inference-cancel"] && tier.Some? &&
         tier.value.permissions.useRemoteProviders {
        SendToHost(Signal(m, id, guest.tierId));
        return;
      }
      if m.kind == "guest-prompt" && tier.Some? && tier.value.permissions.submitPrompts {
        var p := tier.value.permissions;
        var model := AllowedModel(tier.value, m.model);
        var level := AllowedReasoning(tier.value, model, m.reasoningLevel);
        var content := if |m.content| <= 4000 then m.content else m.content[..4000];
        SendToHost(Prompt(id, guest.name, guest.tierId, p.autoExecutePrompts && p.fullSystemAccess,
                          content, model, level, p.commandAllowlist, p.commandBlocklist));
      }
    }

    method PolicyPushed(patch: PolicyPatch)
      requires guests.Keys <= sockets.Keys
      modifies this`policy, this`guests, this`sockets, this`outbox
      ensures State() == SetPolicy(old(State()), patch)
    {
      hide PlaceGuests, PlaceGuest, MergePolicy;
      ghost var s := State();
      policy := MergePolicy(policy, patch);
      PlaceNobody(s, policy);
      var todo := guests.Keys;
      assert s.guests.Keys - todo == {};
      while todo != {}
        invariant todo <= guests.Keys == s.guests.Keys
        invariant State() == PlaceGuests(s, MergePolicy(s.policy, patch), s.guests.Keys - todo)
        invariant guests.Keys <= sockets.Keys
        decreases todo
      {
        var id :| id in todo;
        PlaceOneMore(s, MergePolicy(s.policy, patch), s.guests.Keys - todo, id);
        assert (s.guests.Keys - todo) + {id} == s.guests.Keys - (todo - {id});
        TellPolicy(id);
        todo := todo - {id};
      }
      assert s.guests.Keys - todo == s.guests.Keys;
    }

    /** The loop body of the policy route. */
    method TellPolicy(id: string)
      requires id in guests && id in sockets
      modifies this`guests, this`sockets, this`outbox
      ensures State() == PlaceGuest(old(State()), id)
      ensures guests.Keys == old(guests.Keys) && sockets.Keys == old(sockets.Keys)
    {
      hide TierFor, FindTier, HasTier;
      ghost var s := State();
      if !HasTier(policy, guests[id].tierId) {
        guests := guests[id := guests[id].(tierId := policy.defaultTierId)];
      }
      var tierId := guests[id].tierId;
      assert guests == s.guests[id := s.guests[id].(tierId := TierUnder(policy, s.guests[id].tierId))];
      sockets := sockets[id := sockets[id].(tierId := tierId)];
      SendTo(id, PolicyUpdated(policy));
      SendTo(id, TierUpdated(TierFor(policy, tierId), policy));
      assert outbox[id] == Log(s, id) + PolicyNews(policy, s.guests[id].tierId);
      assert outbox == s.outbox[id := outbox[id]];
    }
  }
}
