/** Access tiers and what they allow: the pure part of the relay server, and the normalisation
    a host applies to a policy before pushing it. */
module RelayPolicy {
  import opened Options

  /** Permissions of a tier. The `view` fields record the test the relay makes: `!== false` for
      chat, diffs and agent status, `=== true` for system messages; the others are truthiness. */
  datatype Permissions = Permissions(
    viewChat: bool, viewSystemMessages: bool, viewDiffs: bool, viewAgentStatus: bool,
    viewParticipants: bool, submitPrompts: bool, autoExecutePrompts: bool,
    fullSystemAccess: bool, useRemoteProviders: bool,
    readPaths: seq<string>, commandAllowlist: seq<string>, commandBlocklist: seq<string>)

  datatype Tier = Tier(
    id: string, name: string, allowedModels: seq<string>,
    reasoningByModel: map<string, seq<string>>, permissions: Permissions)

  datatype Policy = Policy(
    autoJoin: bool, defaultTierId: string, accessTiers: seq<Tier>,
    showDiffs: bool, showAgentStatus: bool, showParticipants: bool, requirePromptApproval: bool)

  /** A message as the relay reads it; an absent field is the empty string or list. */
  datatype Msg = Msg(
    kind: string, guestId: string, approved: bool, tierId: string, path: string,
    excludeGuestIds: seq<string>, name: string, model: string, reasoningLevel: string, content: string)

  function FindTier(tiers: seq<Tier>, id: string): (t: Option<Tier>)
    ensures t.Some? ==> t.value in tiers && t.value.id == id
    ensures t.None? <==> forall k :: 0 <= k < |tiers| ==> tiers[k].id != id
  {
    if tiers == [] then None
    else if tiers[0].id == id then Some(tiers[0])
    else FindTier(tiers[1..], id)
  }

  /** Of several tiers with one id it is the first that counts. */
  lemma {:induction false} FindTierIsFirst(tiers: seq<Tier>, id: string, k: nat)
    requires k < |tiers| && tiers[k].id == id && forall j :: 0 <= j < k ==> tiers[j].id != id
    ensures FindTier(tiers, id) == Some(tiers[k])
  {
    if k > 0 {
      assert tiers[0].id != id;
      FindTierIsFirst(tiers[1..], id, k - 1);
    }
  }

  predicate HasTier(policy: Policy, id: string) {
    FindTier(policy.accessTiers, id).Some?
  }

  function TierFor(policy: Policy, tierId: string): Option<Tier> {
    var own := FindTier(policy.accessTiers, tierId);
    var fallback := FindTier(policy.accessTiers, policy.defaultTierId);
    if own.Some? then own
    else if fallback.Some? then fallback
    else if policy.accessTiers != [] then Some(policy.accessTiers[0])
    else None
  }

  /** A guest's own tier; if the policy lacks it the default; if it lacks that too the first; none only
      if there is none. */
  lemma TierForIs(policy: Policy, tierId: string)
    ensures var t := TierFor(policy, tierId);
            && (forall own :: own in policy.accessTiers && own.id == tierId ==> t.Some? && t.value.id == tierId)
            && ((forall own :: own in policy.accessTiers ==> own.id != tierId) ==>
                  (forall d :: d in policy.accessTiers && d.id == policy.defaultTierId ==>
                     t.Some? && t.value.id == policy.defaultTierId) &&
                  ((forall d :: d in policy.accessTiers ==> d.id != policy.defaultTierId) ==>
                     t == if policy.accessTiers == [] then None else Some(policy.accessTiers[0])))
            && (t.Some? ==> t.value in policy.accessTiers)
  {
    hide FindTier;
    var own := FindTier(policy.accessTiers, tierId);
    var fallback := FindTier(policy.accessTiers, policy.defaultTierId);
    assert own.None? ==> forall x :: x in policy.accessTiers ==> x.id != tierId;
    assert fallback.None? ==> forall x :: x in policy.accessTiers ==> x.id != policy.defaultTierId;
  }

  // -- Paths -----------------------------------------------------------------

  function WithoutDotSlash(p: string): string {
    if "./" <= p then p[2..] else p
  }

  function WithoutLast(p: string, c: char): string {
    if p != "" && p[|p| - 1] == c then p[..|p| - 1] else p
  }

  /** `pattern.replace(/\*\*?$/, '')` drops at most two trailing stars. */
  function PatternPrefix(pattern: string): string {
    WithoutDotSlash(WithoutLast(WithoutLast(pattern, '*'), '*'))
  }

  predicate PathAllowed(path: string, patterns: seq<string>) {
    var clean := WithoutDotSlash(path);
    "**" in patterns
    || exists k :: 0 <= k < |patterns| &&
         var prefix := PatternPrefix(patterns[k]);
         clean == WithoutLast(prefix, '/') || prefix <= clean
  }

  /** A directory pattern admits the directory and what lies below it, and nothing else. */
  lemma DirectoryPattern(dir: string, path: string)
    requires !("./" <= path) && !("./" <= dir + "/") && dir != ""
    ensures PathAllowed(path, [dir + "/**"]) <==> path == dir || dir + "/" <= path
  {
    var pattern := dir + "/**";
    assert pattern[|pattern| - 1] == '*' && pattern[..|pattern| - 1] == dir + "/*";
    assert (dir + "/*")[..|dir| + 1] == dir + "/";
    assert PatternPrefix(pattern) == dir + "/";
    assert (dir + "/")[..|dir|] == dir;
    assert [pattern][0] == pattern;
    assert "**" != pattern;
  }

  /** A path is allowed exactly when one of the patterns, wherever it stands, allows it. */
  lemma AnyPatternWill(path: string, a: seq<string>, b: seq<string>)
    ensures PathAllowed(path, a + b) <==> PathAllowed(path, a) || PathAllowed(path, b)
    ensures !PathAllowed(path, [])
  {
    hide WithoutDotSlash, PatternPrefix, WithoutLast;
    var both := a + b;
    assert forall k :: 0 <= k < |a| ==> both[k] == a[k];
    assert forall k :: 0 <= k < |b| ==> both[|a| + k] == b[k];
  }

  /** A pattern without stars is a textual prefix, not a name: `src/a.ts` also admits `src/a.tsx`. */
  lemma PlainPattern(path: string, pattern: string)
    requires !("./" <= path) && !("./" <= pattern) && pattern != ""
    requires pattern[|pattern| - 1] != '*'
    ensures PathAllowed(path, [pattern]) <==> pattern <= path || path + "/" == pattern
  {
    assert [pattern][0] == pattern && "**" != pattern;
    assert path + "/" == pattern ==> pattern[..|pattern| - 1] == path;
  }

  /** One star says as much as two, and with nothing before them they admit everything. */
  lemma StarPatterns(path: string, dir: string)
    requires dir == "" || (dir[|dir| - 1] != '*' && !("./" <= dir + "*"))
    ensures dir != "" ==>
              (PathAllowed(path, [dir + "*"]) <==> PathAllowed(path, [dir])) &&
              (PathAllowed(path, [dir + "**"]) <==> PathAllowed(path, [dir]))
    ensures dir == "" ==> PathAllowed(path, [dir + "*"]) && PathAllowed(path, [dir + "**"])
  {
    var one, two := dir + "*", dir + "**";
    assert one[..|dir|] == dir && two[..|one|] == one;
    assert [dir][0] == dir && [one][0] == one && [two][0] == two;
    if dir != "" {
      assert |two| > 2 && two != "**";
      assert one[|dir| - 1] == dir[|dir| - 1];
    }
  }

  /** A leading `./` makes no difference, in the path or in a pattern. */
  lemma DotSlashIsIgnored(path: string, pattern: string)
    requires !("./" <= path) && !("./" <= pattern)
    ensures PathAllowed("./" + path, [pattern]) <==> PathAllowed(path, [pattern])
    ensures pattern != "" && pattern[|pattern| - 1] != '*' ==>
              (PathAllowed(path, ["./" + pattern]) <==> PathAllowed(path, [pattern]))
  {
    assert ("./" + path)[2..] == path && ("./" + pattern)[2..] == pattern;
    assert [pattern][0] == pattern && ["./" + pattern][0] == "./" + pattern;
  }

  predicate EventAllowed(m: Msg, tier: Option<Tier>) {
    tier.Some? &&
    var p := tier.value.permissions;
    if m.kind == "chat" then p.viewChat
    else if m.kind == "diff" then
      p.viewDiffs && PathAllowed(m.path, if p.readPaths != [] then p.readPaths else ["**"])
    else if m.kind == "agent-status" then p.viewAgentStatus
    else if m.kind == "log" then p.viewSystemMessages
    else true
  }

  // -- Prompts ---------------------------------------------------------------

  /** The model a prompt runs with: the requested one if the tier allows it, else none. */
  function AllowedModel(tier: Tier, requested: string): (model: string)
    ensures model == "" || (model == requested && ("*" in tier.allowedModels || model in tier.allowedModels))
    ensures requested != "" && ("*" in tier.allowedModels || requested in tier.allowedModels) ==> model == requested
  {
    if requested != "" && ("*" in tier.allowedModels || requested in tier.allowedModels)
    then requested else ""
  }

  function AllowedReasoning(tier: Tier, model: string, requested: string): (level: string)
    ensures level == "" ||
            (level == requested && model in tier.reasoningByModel && level in tier.reasoningByModel[model])
    ensures model != "" && model in tier.reasoningByModel && requested in tier.reasoningByModel[model]
            ==> level == requested
  {
    var allowed := if model != "" && model in tier.reasoningByModel then tier.reasoningByModel[model] else [];
    if requested != "" && requested in allowed then requested else ""
  }

  // -- Normalisation on the host ---------------------------------------------

  predicate SafeIdChar(c: char) {
    'a' <= c <= 'z' || '0' <= c <= '9'
  }

  /** `/^[a-z0-9][a-z0-9_-]{0,31}$/` */
  predicate SafeTierId(id: string) {
    && 1 <= |id| <= 32
    && SafeIdChar(id[0])
    && forall k :: 1 <= k < |id| ==> SafeIdChar(id[k]) || id[k] == '_' || id[k] == '-'
  }

  datatype PolicyPatch = PolicyPatch(
    autoJoin: Option<bool>, defaultTierId: Option<string>, accessTiers: Option<seq<Tier>>,
    showDiffs: Option<bool>, showAgentStatus: Option<bool>, showParticipants: Option<bool>,
    requirePromptApproval: Option<bool>)

  function Or<T>(o: Option<T>, fallback: T): T {
    if o.Some? then o.value else fallback
  }

  function CleanTiers(tidy: Tier -> Tier, tiers: seq<Tier>): (r: seq<Tier>)
    ensures |r| <= |tiers|
    ensures forall k :: 0 <= k < |r| ==> SafeTierId(r[k].id) && r[k].name != ""
  {
    if tiers == [] then [] else
      var t := tidy(tiers[0]);
      (if SafeTierId(t.id) && t.name != "" then [t] else []) + CleanTiers(tidy, tiers[1..])
  }

  /** `normalizePolicy`; `tidy` stands for the per-tier trimming and de-duplication. `None` is
      the thrown error. */
  function NormalizePolicy(tidy: Tier -> Tier, current: Policy, patch: PolicyPatch): Option<Policy> {
    var tiers :=
      if patch.accessTiers.Some? then
        var given := patch.accessTiers.value;
        CleanTiers(tidy, if |given| <= 24 then given else given[..24])
      else current.accessTiers;
    if tiers == [] then None else
      var defaultTierId :=
        if patch.defaultTierId.Some? && FindTier(tiers, patch.defaultTierId.value).Some?
          then patch.defaultTierId.value
        else if FindTier(tiers, current.defaultTierId).Some? then current.defaultTierId
        else tiers[0].id;
      Some(Policy(Or(patch.autoJoin, current.autoJoin), defaultTierId, tiers,
                  Or(patch.showDiffs, current.showDiffs), Or(patch.showAgentStatus, current.showAgentStatus),
                  Or(patch.showParticipants, current.showParticipants),
                  Or(patch.requirePromptApproval, current.requirePromptApproval)))
  }

  lemma {:induction false} CleanTiersAppend(tidy: Tier -> Tier, a: seq<Tier>, b: seq<Tier>)
    ensures CleanTiers(tidy, a + b) == CleanTiers(tidy, a) + CleanTiers(tidy, b)
    decreases |a|
  {
    hide SafeTierId;
    if a == [] {
      assert a + b == b;
    } else {
      assert (a + b)[1..] == a[1..] + b;
      CleanTiersAppend(tidy, a[1..], b);
    }
  }

  /** Which tiers come out: every given one, tidied, that has a safe id and a name, and no other. With
      `CleanTiersAppend` they keep their order. */
  lemma {:induction false} CleanTiersAre(tidy: Tier -> Tier, tiers: seq<Tier>, t: Tier)
    ensures t in CleanTiers(tidy, tiers) <==>
            SafeTierId(t.id) && t.name != "" && exists k :: 0 <= k < |tiers| && tidy(tiers[k]) == t
    ensures |tiers| == 1 ==>
              CleanTiers(tidy, tiers) ==
              if SafeTierId(tidy(tiers[0]).id) && tidy(tiers[0]).name != "" then [tidy(tiers[0])] else []
  {
    hide SafeTierId;
    if tiers != [] {
      CleanTiersAre(tidy, tiers[1..], t);
      assert tiers == [tiers[0]] + tiers[1..];
    }
  }

  /** An id is safe exactly if it is made of 1 to 32 small letters, digits, `_` and `-`, and starts with
      neither sign. */
  lemma SafeTierIdIff(id: string)
    ensures SafeTierId(id) <==>
            && 1 <= |id| <= 32
            && (forall k :: 0 <= k < |id| ==>
                  id[k] in "abcdefghijklmnopqrstuvwxyz" || id[k] in "0123456789" || id[k] in "_-")
            && id[0] !in "_-"
  {
    forall c ensures c in "abcdefghijklmnopqrstuvwxyz" <==> 'a' <= c <= 'z' {
      Letters(c);
    }
    forall c ensures c in "0123456789" <==> '0' <= c <= '9' {
      Digits(c);
    }
    forall c ensures c in "_-" <==> c == '_' || c == '-' {
      Signs(c);
    }
    SafeByCharacters(id, "abcdefghijklmnopqrstuvwxyz", "0123456789", "_-");
  }

  lemma SafeByCharacters(id: string, letters: string, digits: string, signs: string)
    requires forall c :: c in letters <==> 'a' <= c <= 'z'
    requires forall c :: c in digits <==> '0' <= c <= '9'
    requires forall c :: c in signs <==> c == '_' || c == '-'
    ensures SafeTierId(id) <==>
            && 1 <= |id| <= 32
            && (forall k :: 0 <= k < |id| ==> id[k] in letters || id[k] in digits || id[k] in signs)
            && id[0] !in signs
  {
  }

  lemma Letters(c: char)
    ensures c in "abcdefghijklmnopqrstuvwxyz" <==> 'a' <= c <= 'z'
  {
    if 'a' <= c <= 'z' {
      assert "abcdefghijklmnopqrstuvwxyz"[c as int - 'a' as int] == c;
    }
  }

  lemma Digits(c: char)
    ensures c in "0123456789" <==> '0' <= c <= '9'
  {
    if '0' <= c <= '9' {
      assert "0123456789"[c as int - '0' as int] == c;
    }
  }

  lemma Signs(c: char)
    ensures c in "_-" <==> c == '_' || c == '-'
  {
    assert "_-"[0] == '_' && "_-"[1] == '-';
  }

  /** What a normalised policy is: of at most 24 given tiers the usable ones, in order, or else the
      current ones; the patch's default if there is such a tier, else the current one if there is, else
      the first; and each switch as the patch has it, or else as it was. */
  lemma NormalizedPolicyIs(tidy: Tier -> Tier, current: Policy, patch: PolicyPatch)
    requires NormalizePolicy(tidy, current, patch).Some?
    ensures var p := NormalizePolicy(tidy, current, patch).value;
            && (patch.accessTiers.None? ==> p.accessTiers == current.accessTiers)
            && (patch.accessTiers.Some? && |patch.accessTiers.value| <= 24 ==>
                  p.accessTiers == CleanTiers(tidy, patch.accessTiers.value))
            && (patch.accessTiers.Some? && |patch.accessTiers.value| > 24 ==>
                  p.accessTiers == CleanTiers(tidy, patch.accessTiers.value[..24]))
            && (forall id :: patch.defaultTierId == Some(id) && HasTier(p, id) ==> p.defaultTierId == id)
            && ((patch.defaultTierId.None? || !HasTier(p, patch.defaultTierId.value)) ==>
                  p.defaultTierId ==
                  if HasTier(p, current.defaultTierId) then current.defaultTierId else p.accessTiers[0].id)
    ensures var p := NormalizePolicy(tidy, current, patch).value;
            && (p.autoJoin <==> patch.autoJoin == Some(true) || (patch.autoJoin.None? && current.autoJoin))
            && (p.showDiffs <==> patch.showDiffs == Some(true) || (patch.showDiffs.None? && current.showDiffs))
            && (p.showAgentStatus <==>
                  patch.showAgentStatus == Some(true) || (patch.showAgentStatus.None? && current.showAgentStatus))
            && (p.showParticipants <==>
                  patch.showParticipants == Some(true) || (patch.showParticipants.None? && current.showParticipants))
            && (p.requirePromptApproval <==>
                  patch.requirePromptApproval == Some(true) ||
                  (patch.requirePromptApproval.None? && current.requirePromptApproval))
  {
    hide CleanTiers;
  }

  /** A policy whose default tier exists. */
  predicate Normal(policy: Policy) {
    HasTier(policy, policy.defaultTierId)
  }

  /** After normalising, the default tier exists, so every lookup lands on the guest's own tier
      if there is one and on the default if not. */
  lemma NormalizedLookups(tidy: Tier -> Tier, current: Policy, patch: PolicyPatch, tierId: string)
    requires NormalizePolicy(tidy, current, patch).Some?
    ensures var p := NormalizePolicy(tidy, current, patch).value;
            && Normal(p)
            && TierFor(p, tierId).Some?
            && TierFor(p, tierId).value.id == (if HasTier(p, tierId) then tierId else p.defaultTierId)
            && (patch.accessTiers.Some? ==>
                  |p.accessTiers| <= 24 &&
                  forall k :: 0 <= k < |p.accessTiers| ==> SafeTierId(p.accessTiers[k].id))
  {
    hide SafeTierId;
    var tiers := NormalizePolicy(tidy, current, patch).value.accessTiers;
    assert FindTier(tiers, tiers[0].id).Some?;
  }

  /** Normalising fails exactly when no usable tier is left. */
  lemma NormalizeFailsIff(tidy: Tier -> Tier, current: Policy, patch: PolicyPatch)
    ensures NormalizePolicy(tidy, current, patch).None? <==>
            if patch.accessTiers.None? then current.accessTiers == []
            else forall k :: 0 <= k < |patch.accessTiers.value| && k < 24 ==>
                   var t := tidy(patch.accessTiers.value[k]);
                   !SafeTierId(t.id) || t.name == ""
  {
    hide SafeTierId;
    if patch.accessTiers.Some? {
      var given := patch.accessTiers.value;
      NothingCleanIffAllUnsafe(tidy, if |given| <= 24 then given else given[..24]);
    }
  }

  lemma {:induction false} NothingCleanIffAllUnsafe(tidy: Tier -> Tier, tiers: seq<Tier>)
    ensures CleanTiers(tidy, tiers) == [] <==>
            forall k :: 0 <= k < |tiers| ==> !SafeTierId(tidy(tiers[k]).id) || tidy(tiers[k]).name == ""
  {
    if tiers != [] {
      NothingCleanIffAllUnsafe(tidy, tiers[1..]);
      assert forall k :: 1 <= k < |tiers| ==> tiers[k] == tiers[1..][k - 1];
    }
  }
}
