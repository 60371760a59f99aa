/** The host's transport: peer-to-peer channels first, the relay for everyone else. */
module HybridTransport {
  import opened Options
  import opened RelayPolicy
  import opened RelaySpec
  import RelayLateJoin

  /** Of a peer, whether its data channel is open; the tier it keeps is in `PeerPrompts`. */
  datatype Peer = Peer(open: bool)

  /** Peers a broadcast reaches: an open channel whose `send` does not throw. */
  function Reached(peers: map<string, Peer>, refusing: set<string>): set<string> {
    set id | id in peers && peers[id].open && id !in refusing
  }

  function Carried(p2p: map<string, seq<Msg>>, id: string): seq<Msg> {
    if id in p2p then p2p[id] else []
  }

  function CarryEach(p2p: map<string, seq<Msg>>, ids: set<string>, m: Msg): map<string, seq<Msg>> {
    map id | id in p2p.Keys + ids :: if id in ids then Carried(p2p, id) + [m] else Carried(p2p, id)
  }

  lemma CarriedByEach(p2p: map<string, seq<Msg>>, ids: set<string>, m: Msg)
    ensures forall id :: Carried(CarryEach(p2p, ids, m), id) ==
              if id in ids then Carried(p2p, id) + [m] else Carried(p2p, id)
  {
  }

  lemma CarryOneMore(p2p: map<string, seq<Msg>>, ids: set<string>, id: string, m: Msg)
    requires id !in ids
    ensures var c := CarryEach(p2p, ids, m);
            CarryEach(p2p, ids + {id}, m) == c[id := Carried(c, id) + [m]]
  {
    var c := CarryEach(p2p, ids, m);
    var l, r := CarryEach(p2p, ids + {id}, m), c[id := Carried(c, id) + [m]];
    assert l.Keys == r.Keys;
    assert forall g :: g in l ==> l[g] == r[g];
  }

  predicate NoDuplicates(ids: seq<string>) {
    forall j, k :: 0 <= j < k < |ids| ==> ids[j] != ids[k]
  }

  class RelayClient {
    var connected: bool
    var peers: map<string, Peer>
    var p2p: map<string, seq<Msg>>  // what each peer channel has carried
    var toRelay: seq<Msg>           // what went to the relay

    constructor ()
      ensures !connected && peers == map[] && p2p == map[] && toRelay == []
    {
      connected, peers, p2p, toRelay := false, map[], map[], [];
    }

    /** `HybridPeerTransport.broadcast`; `refusing` are the channels whose `send` throws. */
    method PeerBroadcast(m: Msg, refusing: set<string>) returns (delivered: seq<string>)
      modifies this`p2p
      ensures forall j, k :: 0 <= j < k < |delivered| ==> delivered[j] != delivered[k]
      ensures forall id :: id in delivered <==> id in peers && peers[id].open && id !in refusing
      ensures forall id :: Carried(p2p, id) ==
                if id in peers && peers[id].open && id !in refusing then Carried(old(p2p), id) + [m]
                else Carried(old(p2p), id)
      ensures p2p == CarryEach(old(p2p), Reached(peers, refusing), m)
    {
      delivered := [];
      var todo := peers.Keys;
      assert p2p == CarryEach(p2p, {}, m);
      hide CarryEach;
      ghost var sent: set<string> := {};
      while todo != {}
        invariant todo <= peers.Keys
        invariant sent == Reached(peers, refusing) - todo
        invariant NoDuplicates(delivered)
        invariant forall id :: id in delivered <==> id in sent
        invariant p2p == CarryEach(old(p2p), sent, m)
        decreases todo
      {
        var id :| id in todo;
        if peers[id].open && id !in refusing {
          CarryOneMore(old(p2p), sent, id, m);
          p2p := p2p[id := (if id in p2p then p2p[id] else []) + [m]];
          delivered := delivered + [id];
          sent := sent + {id};
        }
        todo := todo - {id};
      }
      assert sent == Reached(peers, refusing);
      CarriedByEach(old(p2p), sent, m);
    }

    /** `RelayClient.broadcast` */
    method Broadcast(m: Msg, refusing: set<string>)
      modifies this`p2p, this`toRelay
      ensures !connected ==> p2p == old(p2p) && toRelay == old(toRelay)
      ensures connected ==>
        && p2p == CarryEach(old(p2p), Reached(peers, refusing), m)
        && |toRelay| == |old(toRelay)| + 1 && old(toRelay) <= toRelay
        && Excluding(toRelay[|old(toRelay)|], m, Reached(peers, refusing))
    {
      if !connected {
        return;
      }
      var excludeGuestIds := PeerBroadcast(m, refusing);
      var msg := if |excludeGuestIds| > 0 then m.(excludeGuestIds := excludeGuestIds) else m;
      assert excludeGuestIds != [] ==> excludeGuestIds[0] in Reached(peers, refusing);
      assert excludeGuestIds == [] ==> Reached(peers, refusing) == {} by {
        if id :| id in Reached(peers, refusing) {
          assert id in excludeGuestIds;
        }
      }
      toRelay := toRelay + [msg];
    }
  }

  /** `sent` is `m`, marked to skip the peers already reached (unmarked if there were none). */
  ghost predicate Excluding(sent: Msg, m: Msg, reached: set<string>) {
    && sent == m.(excludeGuestIds := sent.excludeGuestIds)
    && (reached == {} ==> sent == m)
    && (reached != {} ==> forall id :: id in sent.excludeGuestIds <==> id in reached)
  }

  // -- Exactly once ----------------------------------------------------------

  /** What one broadcast adds to each guest's two channels: one copy over the peer channel if it
      was reached, else one over the relay if it is admitted and its tier allows the event. */
  lemma OneCopy(s: Session, m: Msg, sent: Msg, reached: set<string>, p2p: map<string, seq<Msg>>, id: string)
    requires IsBroadcast(m) && m.excludeGuestIds == [] && m.kind != "approval-result"
    requires Excluding(sent, m, reached)
    ensures var r := HostMessage(s, sent);
            var overPeer := |Carried(CarryEach(p2p, reached, m), id)| - |Carried(p2p, id)|;
            var overRelay := |Log(r, id)| - |Log(s, id)|;
            var entitled := id in s.guests && s.guests[id].admitted &&
                            EventAllowed(m, TierFor(s.policy, s.guests[id].tierId));
            && 0 <= overPeer && 0 <= overRelay
            && overPeer + overRelay == (if id in reached || entitled then 1 else 0)
            && (overPeer == 1 ==> Carried(CarryEach(p2p, reached, m), id) == Carried(p2p, id) + [m])
            && (overRelay == 1 ==> Log(r, id) == Log(s, id) + [Event(m)])
  {
    hide TierFor, EventAllowed;
    assert IsBroadcast(sent);
    assert Strip(sent) == m;
    SameEvent(m, sent.excludeGuestIds, if id in s.guests then TierFor(s.policy, s.guests[id].tierId) else None);
  }

  lemma SameEvent(m: Msg, excluded: seq<string>, tier: Option<Tier>)
    ensures EventAllowed(m.(excludeGuestIds := excluded), tier) == EventAllowed(m, tier)
  {
  }

  /** A step of host, relay and peer channels together. */
  datatype NetStep =
    | HostBroadcasts(msg: Msg, sent: Msg, reached: set<string>)
    | RelayActs(action: Action)

  datatype Net = Net(relay: Session, p2p: map<string, seq<Msg>>)

  function NetAfter(n: Net, step: NetStep): Net {
    match step
    case HostBroadcasts(msg, sent, reached) =>
      Net(HostMessage(n.relay, sent), CarryEach(n.p2p, reached, msg))
    case RelayActs(action) => Net(RelaySpec.Step(n.relay, action), n.p2p)
  }

  function NetRun(n: Net, steps: seq<NetStep>): Net {
    if steps == [] then n else NetAfter(NetRun(n, steps[..|steps| - 1]), steps[|steps| - 1])
  }

  /** Steps the host can make without touching guest `id`'s standing: broadcasts go through the
      hybrid transport, everything else is not a broadcast. */
  ghost predicate Quiet(step: NetStep, id: string) {
    match step
    case HostBroadcasts(msg, sent, reached) =>
      IsBroadcast(msg) && msg.excludeGuestIds == [] && Excluding(sent, msg, reached)
      && msg.kind !in ["join-decision", "assign-tier"]
    case RelayActs(action) =>
      RelayLateJoin.Keeps(action, id) && (action.HostSays? ==> !IsBroadcast(action.msg))
  }

  /** The broadcasts a guest is to get: those sent over its open channel and those its tier allows. */
  function Due(steps: seq<NetStep>, id: string, tier: Option<Tier>): seq<Msg> {
    if steps == [] then [] else
      var last := steps[|steps| - 1];
      Due(steps[..|steps| - 1], id, tier) +
        if last.HostBroadcasts? && (id in last.reached || EventAllowed(last.msg, tier)) then [last.msg] else []
  }

  function Received(n: Net, id: string): multiset<Msg> {
    multiset(RelayLateJoin.View(Log(n.relay, id))) + multiset(Carried(n.p2p, id))
  }

  lemma QuietBroadcast(n: Net, msg: Msg, sent: Msg, reached: set<string>, id: string, tier: Option<Tier>)
    requires RelayLateJoin.Stands(n.relay, id, tier) && Quiet(HostBroadcasts(msg, sent, reached), id)
    ensures RelayLateJoin.Stands(HostMessage(n.relay, sent), id, tier)
    ensures RelayLateJoin.View(Log(HostMessage(n.relay, sent), id)) ==
            RelayLateJoin.View(Log(n.relay, id)) + if id !in reached && EventAllowed(msg, tier) then [msg] else []
  {
    hide EventAllowed, RelayLateJoin.View, RelayLateJoin.Stands, HostMessage, Log;
    HostStep(n.relay, sent);
    RelayLateJoin.StepView(n.relay, HostSays(sent), id, tier);
    SameEvent(msg, sent.excludeGuestIds, tier);
    assert Strip(sent) == msg;
  }

  lemma QuietStep(n: Net, step: NetStep, id: string, tier: Option<Tier>)
    requires RelayLateJoin.Stands(n.relay, id, tier) && Quiet(step, id)
    ensures RelayLateJoin.Stands(NetAfter(n, step).relay, id, tier)
    ensures Received(NetAfter(n, step), id) ==
            Received(n, id) + multiset(
              if step.HostBroadcasts? && (id in step.reached || EventAllowed(step.msg, tier)) then [step.msg] else [])
  {
    hide EventAllowed, RelayLateJoin.View, RelayLateJoin.Stands, RelayLateJoin.ShownOne, HostMessage,
      RelaySpec.Step, Log, Excluding, IsBroadcast;
    match step
    case RelayActs(action) => RelayLateJoin.StepView(n.relay, action, id, tier);
    case HostBroadcasts(msg, sent, reached) => QuietBroadcast(n, msg, sent, reached, id, tier);
  }

  lemma HostStep(s: Session, m: Msg)
    ensures RelaySpec.Step(s, HostSays(m)) == HostMessage(s, m)
  {
  }

  /** Over any run in which a guest's standing is left alone, whatever peer channels open, close
      or refuse, the two channels together bring it each broadcast it is due exactly once. */
  lemma {:induction false} ExactlyOnce(n: Net, steps: seq<NetStep>, id: string, tier: Option<Tier>)
    requires RelayLateJoin.Stands(n.relay, id, tier)
    requires forall k :: 0 <= k < |steps| ==> Quiet(steps[k], id)
    ensures RelayLateJoin.Stands(NetRun(n, steps).relay, id, tier)
    ensures Received(NetRun(n, steps), id) == Received(n, id) + multiset(Due(steps, id, tier))
  {
    hide Received, RelayLateJoin.Stands, Quiet, NetAfter, EventAllowed;
    if steps != [] {
      var init := steps[..|steps| - 1];
      ExactlyOnce(n, init, id, tier);
      QuietStep(NetRun(n, init), steps[|init|], id, tier);
    }
  }

  // -- What a guest's tier does not allow ------------------------------------

  /** The host tests no permission before it sends over a peer channel: over any run, a guest receives
      nothing its tier does not allow exactly when no such broadcast reaches it over its channel. */
  lemma OnlyAllowedIff(n: Net, steps: seq<NetStep>, id: string, tier: Option<Tier>)
    requires RelayLateJoin.Stands(n.relay, id, tier)
    requires forall k :: 0 <= k < |steps| ==> Quiet(steps[k], id)
    ensures (forall m :: !EventAllowed(m, tier) ==> Received(NetRun(n, steps), id)[m] == Received(n, id)[m])
            <==>
            (forall k :: 0 <= k < |steps| && steps[k].HostBroadcasts? && id in steps[k].reached ==>
               EventAllowed(steps[k].msg, tier))
  {
    hide EventAllowed, Received, RelayLateJoin.Stands, Quiet, NetRun;
    ExactlyOnce(n, steps, id, tier);
    var due := Due(steps, id, tier);
    DueAt(steps, id, tier);
    assert forall m :: multiset(due)[m] > 0 <==> m in due;
    if forall m :: !EventAllowed(m, tier) ==> Received(NetRun(n, steps), id)[m] == Received(n, id)[m] {
      forall k | 0 <= k < |steps| && steps[k].HostBroadcasts? && id in steps[k].reached
        ensures EventAllowed(steps[k].msg, tier)
      {
        assert steps[k].msg in due;
      }
    }
  }

  lemma {:induction false} DueAt(steps: seq<NetStep>, id: string, tier: Option<Tier>)
    ensures forall m :: m in Due(steps, id, tier) <==>
              exists k :: 0 <= k < |steps| && steps[k].HostBroadcasts? && steps[k].msg == m &&
                          (id in steps[k].reached || EventAllowed(m, tier))
  {
    hide EventAllowed;
    if steps != [] {
      var init := steps[..|steps| - 1];
      DueAt(init, id, tier);
      assert steps == init + [steps[|init|]];
    }
  }

  /** One broadcast that the relay withholds: the guest receives it exactly when it is reached directly. */
  lemma WithheldArrivesIff(n: Net, msg: Msg, sent: Msg, reached: set<string>, id: string, tier: Option<Tier>)
    requires RelayLateJoin.Stands(n.relay, id, tier) && Quiet(HostBroadcasts(msg, sent, reached), id)
    requires !EventAllowed(msg, tier)
    ensures var r := NetAfter(n, HostBroadcasts(msg, sent, reached));
            Received(r, id) == Received(n, id) + if id in reached then multiset{msg} else multiset{}
  {
    hide EventAllowed, Received, RelayLateJoin.Stands, Quiet, NetAfter;
    QuietStep(n, HostBroadcasts(msg, sent, reached), id, tier);
  }

  /** For example, a chat line, sent while a guest that may not see the chat has an open channel. */
  lemma HiddenChatArrives(n: Net, line: Msg, id: string, tier: Tier)
    requires RelayLateJoin.Stands(n.relay, id, Some(tier)) && !tier.permissions.viewChat
    requires line.kind == "chat" && line.guestId == "" && line.excludeGuestIds == []
    ensures var sent := line.(excludeGuestIds := [id]);
            && RelayLateJoin.View(Log(HostMessage(n.relay, sent), id)) == RelayLateJoin.View(Log(n.relay, id))
            && RelayLateJoin.View(Log(HostMessage(n.relay, line), id)) == RelayLateJoin.View(Log(n.relay, id))
            && Received(NetAfter(n, HostBroadcasts(line, sent, {id})), id) == Received(n, id) + multiset{line}
  {
    hide RelayLateJoin.Stands, RelayLateJoin.View, HostMessage, NetAfter, Received, PathAllowed;
    var sent := line.(excludeGuestIds := [id]);
    QuietBroadcast(n, line, sent, {id}, id, Some(tier));
    QuietBroadcast(n, line, line, {}, id, Some(tier));
    WithheldArrivesIff(n, line, sent, {id}, id, Some(tier));
  }
}
