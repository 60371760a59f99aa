/** The relay session as a step machine: every websocket or HTTP handler is one transition. */
module RelaySpec {
  import opened Options
  import opened RelayPolicy

  datatype Guest = Guest(name: string, tierId: string, admitted: bool)
  /** The copy of a guest's standing kept on its socket (`ws.data`). */
  datatype Socket = Socket(tierId: string, admitted: bool)

  /** What the relay sends to a guest. */
  datatype Out =
    | JoinPending
    | JoinRejected
    | Init(role: string, tier: Option<Tier>, history: seq<Msg>)
    | GuestJoined(guestId: string, role: string)
    | GuestLeft(guestId: string)
    | PolicyUpdated(policy: Policy)
    | TierUpdated(tier: Option<Tier>, policy: Policy)
    | Direct(msg: Msg)
    | Catalog(msg: Msg)
    | Event(msg: Msg)
    | ApprovalResult(approved: bool)
    | HostDisconnected

  /** What the relay sends to the host. */
  datatype HostIn =
    | GuestList(guests: map<string, Guest>)
    | JoinRequest(guestId: string, name: string, tierId: string)
    | Joined(guestId: string, name: string, role: string)
    | Left(guestId: string, name: string)
    | Signal(msg: Msg, guestId: string, tierId: string)
    | Prompt(guestId: string, name: string, role: string, autoExecute: bool,
             content: string, model: string, reasoningLevel: string,
             commandAllowlist: seq<string>, commandBlocklist: seq<string>)

  datatype Session = Session(
    policy: Policy,
    guests: map<string, Guest>,
    sockets: map<string, Socket>,
    history: seq<Msg>,
    hostUp: bool,
    outbox: map<string, seq<Out>>,  // everything sent to each guest so far
    inbox: seq<HostIn>,             // everything sent to the host so far
    hostLog: seq<Msg>)              // every host event that was broadcast so far

  const HISTORY_LIMIT: nat := 200

  predicate InHistory(m: Msg) {
    m.kind in ["chat", "diff", "agent-status"]
  }

  function Strip(m: Msg): Msg {
    m.(excludeGuestIds := [])
  }

  function Log(s: Session, id: string): seq<Out> {
    if id in s.outbox then s.outbox[id] else []
  }

  function Send(s: Session, id: string, outs: seq<Out>): (r: Session)
    ensures r == s.(outbox := r.outbox)
  {
    s.(outbox := s.outbox[id := Log(s, id) + outs])
  }

  /** Sends to each guest what `outs` holds for it. */
  function SendEach(s: Session, outs: map<string, seq<Out>>): (r: Session)
    ensures r == s.(outbox := r.outbox)
  {
    s.(outbox := map id | id in s.outbox.Keys + outs.Keys ::
        if id in outs then Log(s, id) + outs[id] else Log(s, id))
  }

  function SendAll(s: Session, ids: set<string>, out: Out): (r: Session)
    ensures r == s.(outbox := r.outbox)
  {
    SendEach(s, map id | id in ids :: [out])
  }

  function ToHost(s: Session, x: HostIn): (r: Session)
    ensures r == s.(inbox := r.inbox)
  {
    if s.hostUp then s.(inbox := s.inbox + [x]) else s
  }

  function FilterAllowed(history: seq<Msg>, tier: Option<Tier>): seq<Msg> {
    if history == [] then [] else
      (if EventAllowed(history[0], tier) then [history[0]] else []) + FilterAllowed(history[1..], tier)
  }

  /** The history shown on automatic admission: only the session-wide switches count. */
  function FilterSwitches(history: seq<Msg>, policy: Policy): seq<Msg> {
    if history == [] then [] else
      (if (history[0].kind != "diff" || policy.showDiffs) &&
          (history[0].kind != "agent-status" || policy.showAgentStatus)
       then [history[0]] else []) + FilterSwitches(history[1..], policy)
  }

  // -- Handlers --------------------------------------------------------------

  function OpenHost(s: Session): Session {
    ToHost(s.(hostUp := true), GuestList(s.guests))
  }

  function OpenGuest(s: Session, id: string, name: string, tierId: string): Session {
    var admitted := s.policy.autoJoin;
    var s1 := s.(sockets := s.sockets[id := Socket(tierId, admitted)],
                 guests := s.guests[id := Guest(name, tierId, admitted)]);
    if !admitted then
      ToHost(Send(s1, id, [JoinPending]), JoinRequest(id, name, tierId))
    else
      var s2 := Send(s1, id,
        [Init(tierId, TierFor(s.policy, tierId), FilterSwitches(s.history, s.policy))]);
      var s3 := ToHost(s2, Joined(id, name, tierId));
      if s.policy.showParticipants
        then SendAll(s3, s1.guests.Keys - {id}, GuestJoined(id, tierId)) else s3
  }

  function JoinDecision(s: Session, m: Msg): Session
    requires m.guestId in s.guests
  {
    var id, guest := m.guestId, s.guests[m.guestId];
    if !m.approved then Send(s, id, [JoinRejected]) else
      var requested := if m.tierId != "" then m.tierId else guest.tierId;
      var tierId := if HasTier(s.policy, requested) then requested else s.policy.defaultTierId;
      var tier := TierFor(s.policy, tierId);
      var s1 := s.(guests := s.guests[id := guest.(tierId := tierId, admitted := true)],
                   sockets := s.sockets[id := Socket(tierId, true)]);
      var s2 := Send(s1, id, [Init(tierId, tier, FilterAllowed(s.history, tier))]);
      SendAll(s2, Watchers(s1), GuestJoined(id, tierId))
  }

  function Admitted(s: Session): set<string> {
    set id | id in s.guests && s.guests[id].admitted
  }

  /** Admitted guests whose tier may see participants. */
  function Watchers(s: Session): set<string> {
    set id | id in s.guests && s.guests[id].admitted &&
             var tier := TierFor(s.policy, s.guests[id].tierId);
             tier.Some? && tier.value.permissions.viewParticipants
  }

  function AssignTier(s: Session, m: Msg): Session {
    if m.guestId !in s.guests || !HasTier(s.policy, m.tierId) then s else
      var s1 := s.(guests := s.guests[m.guestId := s.guests[m.guestId].(tierId := m.tierId)],
                   sockets := s.sockets[m.guestId := Socket(m.tierId, s.guests[m.guestId].admitted)]);
      Send(s1, m.guestId, [TierUpdated(TierFor(s.policy, m.tierId), s.policy)])
  }

  /** Guests that get a broadcast host event over the relay. */
  function Recipients(s: Session, m: Msg): set<string> {
    set id | id in s.guests && id !in m.excludeGuestIds && s.guests[id].admitted &&
             EventAllowed(m, TierFor(s.policy, s.guests[id].tierId))
  }

  function Remember(history: seq<Msg>, m: Msg): seq<Msg> {
    var h := history + [m];
    if |h| > HISTORY_LIMIT then h[1..] else h
  }

  function Broadcast(s: Session, m: Msg): Session {
    var s1 := SendAll(s, Recipients(s, m), Event(Strip(m)));
    var s2 := s1.(history := if InHistory(m) then Remember(s.history, m) else s.history,
                  hostLog := s.hostLog + [m]);
    if m.kind == "approval-result" && m.guestId in s.guests
      then Send(s2, m.guestId, [ApprovalResult(m.approved)]) else s2
  }

  /** Host messages that are not routed to one guest or to the catalog fan-out. */
  predicate IsBroadcast(m: Msg) {
    && m.kind != "provider-catalog"
    && (m.guestId != "" ==>
          m.kind !in ["rtc-answer", "rtc-ice", "inference-event", "inference-done", "inference-error",
                      "join-decision", "assign-tier"])
  }

  /** Signalling, inference and catalog messages: sends only. */
  function Route(s: Session, m: Msg): (r: Session)
    ensures r == s.(outbox := r.outbox)
  {
    if m.kind == "provider-catalog" then SendAll(s, Admitted(s), Catalog(m))
    else if m.guestId !in s.guests then s
    else if m.kind in ["rtc-answer", "rtc-ice"] then Send(s, m.guestId, [Direct(m)])
    else Send(s, m.guestId, [Direct(m.(guestId := ""))])
  }

  function HostMessage(s: Session, m: Msg): Session {
    if IsBroadcast(m) then Broadcast(s, m)
    else if m.kind == "join-decision" then
      if m.guestId in s.guests then JoinDecision(s, m) else s
    else if m.kind == "assign-tier" then AssignTier(s, m)
    else Route(s, m)
  }

  function PromptFor(id: string, guest: Guest, tier: Tier, m: Msg): HostIn {
    var model := AllowedModel(tier, m.model);
    Prompt(id, guest.name, guest.tierId,
           tier.permissions.autoExecutePrompts && tier.permissions.fullSystemAccess,
           if |m.content| <= 4000 then m.content else m.content[..4000],
           model, AllowedReasoning(tier, model, m.reasoningLevel),
           tier.permissions.commandAllowlist, tier.permissions.commandBlocklist)
  }

  function GuestMessage(s: Session, id: string, m: Msg): Session {
    if id !in s.guests || !s.guests[id].admitted then s else
      var guest := s.guests[id];
      var tier := TierFor(s.policy, guest.tierId);
      if m.kind in ["rtc-offer", "rtc-ice"] then ToHost(s, Signal(m, id, guest.tierId))
      else if m.kind in ["inference-request", "inference-cancel"] &&
              tier.Some? && tier.value.permissions.useRemoteProviders then
        ToHost(s, Signal(m, id, guest.tierId))
      else if m.kind == "guest-prompt" && tier.Some? && tier.value.permissions.submitPrompts then
        ToHost(s, PromptFor(id, guest, tier.value, m))
      else s
  }

  function CloseHost(s: Session): Session {
    SendAll(s.(hostUp := false), s.guests.Keys, HostDisconnected)
  }

  function CloseGuest(s: Session, id: string, name: string): Session {
    var s1 := ToHost(s.(guests := s.guests - {id}), Left(id, name));
    SendAll(s1, s1.guests.Keys, GuestLeft(id))
  }

  /** `{ ...DEFAULT_POLICY, ...session.policy, ...patch, requirePromptApproval: true }` */
  function MergePolicy(current: Policy, patch: PolicyPatch): Policy {
    Policy(Or(patch.autoJoin, current.autoJoin), Or(patch.defaultTierId, current.defaultTierId),
           Or(patch.accessTiers, current.accessTiers), Or(patch.showDiffs, current.showDiffs),
           Or(patch.showAgentStatus, current.showAgentStatus),
           Or(patch.showParticipants, current.showParticipants), true)
  }

  function TierUnder(policy: Policy, tierId: string): string {
    if HasTier(policy, tierId) then tierId else policy.defaultTierId
  }

  /** The loop of the policy route over the guests in `placed`: each is moved to a tier that the
      policy has, on its socket too, and told. */
  function PlaceGuests(s: Session, policy: Policy, placed: set<string>): Session {
    SendEach(s.(policy := policy, guests := PlacedGuests(s, policy, placed),
                sockets := PlacedSockets(s, policy, placed)),
             map id | id in s.guests && id in placed :: PolicyNews(policy, s.guests[id].tierId))
  }

  function PlacedGuests(s: Session, policy: Policy, placed: set<string>): map<string, Guest> {
    map id | id in s.guests ::
      if id in placed then s.guests[id].(tierId := TierUnder(policy, s.guests[id].tierId)) else s.guests[id]
  }

  function PlacedSockets(s: Session, policy: Policy, placed: set<string>): map<string, Socket> {
    map id | id in s.sockets ::
      if id in placed && id in s.guests
        then s.sockets[id].(tierId := TierUnder(policy, s.guests[id].tierId)) else s.sockets[id]
  }

  function PolicyNews(policy: Policy, tierId: string): seq<Out> {
    [PolicyUpdated(policy), TierUpdated(TierFor(policy, TierUnder(policy, tierId)), policy)]
  }

  function SetPolicy(s: Session, patch: PolicyPatch): Session {
    PlaceGuests(s, MergePolicy(s.policy, patch), s.guests.Keys)
  }

  // -- Runs ------------------------------------------------------------------

  datatype Action =
    | HostOpens
    | HostCloses
    | GuestOpens(id: string, name: string, tierId: string)
    | GuestCloses(id: string, name: string)
    | HostSays(msg: Msg)
    | GuestSays(id: string, msg: Msg)
    | PolicyPushed(patch: PolicyPatch)

  function Step(s: Session, a: Action): Session {
    match a
    case HostOpens => OpenHost(s)
    case HostCloses => CloseHost(s)
    case GuestOpens(id, name, tierId) => OpenGuest(s, id, name, tierId)
    case GuestCloses(id, name) => CloseGuest(s, id, name)
    case HostSays(msg) => HostMessage(s, msg)
    case GuestSays(id, msg) => GuestMessage(s, id, msg)
    case PolicyPushed(patch) => SetPolicy(s, patch)
  }

  /** Connection ids are random: an opening guest never reuses one. */
  predicate Enabled(s: Session, a: Action) {
    a.GuestOpens? ==> a.id !in s.outbox
  }

  function Run(s: Session, actions: seq<Action>): Session {
    if actions == [] then s else
      Step(Run(s, actions[..|actions| - 1]), actions[|actions| - 1])
  }

  ghost predicate Legal(s: Session, actions: seq<Action>) {
    forall k :: 0 <= k < |actions| ==> Enabled(Run(s, actions[..k]), actions[k])
  }

  function NewSession(policy: Policy): Session {
    Session(policy, map[], map[], [], false, map[], [], [])
  }

  // -- Invariants ------------------------------------------------------------

  function Suffix(log: seq<Msg>, n: nat): seq<Msg> {
    if |log| <= n then log else log[|log| - n..]
  }

  /** The host events that belong in the history, in order. */
  function HistoryEvents(log: seq<Msg>): seq<Msg> {
    if log == [] then [] else
      HistoryEvents(log[..|log| - 1]) + if InHistory(log[|log| - 1]) then [log[|log| - 1]] else []
  }

  predicate IsContent(o: Out) {
    o.Event? || o.Init?
  }

  /** The guest table and the sockets agree, and only admitted guests have seen content. */
  ghost predicate Agreed(s: Session) {
    && s.guests.Keys <= s.sockets.Keys
    && s.guests.Keys <= s.outbox.Keys
    && (forall id :: id in s.guests ==>
          s.sockets[id] == Socket(s.guests[id].tierId, s.guests[id].admitted))
    && (forall id :: id in s.guests && !s.guests[id].admitted ==>
          forall k :: 0 <= k < |s.outbox[id]| ==> !IsContent(s.outbox[id][k]))
  }

  /** The rolling history is the last 200 history events of the host's log. */
  ghost predicate Rolling(s: Session) {
    s.history == Suffix(HistoryEvents(s.hostLog), HISTORY_LIMIT)
  }

  lemma HistoryEventsSnoc(log: seq<Msg>, m: Msg)
    ensures HistoryEvents(log + [m]) == HistoryEvents(log) + if InHistory(m) then [m] else []
  {
    assert (log + [m])[..|log|] == log;
  }
}
