# Koryphaios: verified models of its protocols and state machines

This project models, in Dafny, the stateful core of Koryphaios: the collaboration relay and the
hybrid transport in front of it, delta replication of a project into a remote sandbox, remote
inference over one connection, the LSP client's framing, the manager's turn loop with its tool calls,
pruning and archive, the usage reader and its cache, snapshots, the response stream in front of the
broker, the git mutex, and two hashes.

Code that changes things step by step is a class whose methods are proved against a specification
function on values; what the program promises is proved about that function, mostly as statements over
every run. Code made of expressions is functions and lemmas. JSON encoding, clocks, randomness, the
network, tools and model providers are parameters: they may do anything.

| file | what it models |
|---|---|
| `JsStrings`, `Options`, `Sequences` | strings of UTF-16 code units, decimal numerals, missing values, concatenation |
| `LspFraming`, `LspClient` | the `Content-Length` parser and the table of pending requests |
| `RelayPolicy`, `RelaySpec`, `RelayLaws`, `RelayRuns`, `RelayLateJoin`, `RelayServer` | tiers and permissions, the relay's step machine, what each step does seen from one place, invariants over its runs, a guest's view, the handlers |
| `HybridTransport`, `PeerPrompts` | peer channels first, the relay for the rest; prompts that come over a peer channel |
| `ProjectScan`, `ProjectSync`, `ProjectRuns` | scanning a project within a budget, shipping and applying deltas, runs of several projects |
| `Inference`, `GuestClient`, `ProviderHost` | the streaming protocol, the guest's generator, the host's handler |
| `ToolCalls`, `TurnLoop`, `AgentThread`, `Pruning` | assembling tool calls, the manager's transcript over turns, that of workers and critics, stubbing out old outputs |
| `ArchiveLog`, `ContextArchive`, `ArchiveReloads` | the append-only log, its replay, the archive in front of it, and runs in which appends and loads fail |
| `UsageSpec`, `UsageReader`, `UsageReport`, `UsageCache` | which samples count, totals, rows per model, the file cache |
| `SnapshotSpec`, `SnapshotManager` | backing files up and copying them back |
| `StreamSpec`, `StreamController`, `PubSub`, `StreamDelivery` | coalescing thoughts, the broker, and both together |
| `GitMutex`, `PayloadId`, `MigrationChecksum` | the promise-chain mutex, FNV-1a, the migration checksum |

Places where the code does not do what its documentation, or a reader, would expect. Each is proved, where
there is one with the exact condition under which it does:

- The LSP client counts UTF-16 code units where LSP 3.17, "Base Protocol", counts bytes; a conforming
  message is taken out as it was sent if and only if it is ASCII (`ByteFrameExtractedIffAscii`), and
  any other swallows the start of what follows (`NonAsciiSwallowsWhatFollows`).
- A read path without stars is a textual prefix, not a name: a tier that may read `src/a.ts` is shown
  `src/a.tsx` as well (`PlainPattern`).
- On automatic admission the history is cut by the session-wide switches, not by the guest's tier; the
  two agree if and only if the switches match the tier (`AutoJoinHistoryIff`).
- The host keeps with each peer channel the tier its guest had at the offer, and asks nobody again: a
  prompt the relay would not forward gets through exactly when that tier may prompt and the guest's
  present one may not, or the guest has left (`GetsPastInRunIff`). A guest moved to a lower tier, and
  one that left while the host's link was down, go on prompting (`DemotedGuestGoesOn`,
  `DepartedGuestGoesOn`; a run from the start is `DemotionHappens`). The paths agree on every prompt if
  and only if `PathsAgreeIff` says so.
- Before it sends a broadcast over a peer channel the host tests no permission; a guest receives only what
  its tier allows if and only if nothing else reaches it over its channel (`OnlyAllowedIff`, with an
  input in `HiddenChatArrives`).
- The record of what was shipped is updated when a delta is packaged. If the host refuses that turn,
  the next sync converges if and only if everything the refused one shipped or deleted was touched
  again or was in place already (`RefusedSyncRecoversIff`; over whole runs `MixedRunConvergesIff`).
- The client's records go with every new catalog, and each project has its own, while the host keeps one
  sandbox: the first sync converges if and only if the project has every path that is there already
  (`FirstSyncConvergesIff`), and a path that no project has any more stays for good (`LeftBehindForGood`).
- The host leaves out any path whose text contains two dots in a row, so `a..b` is never replicated
  (`TargetIsWholeScanIff`). The comment on edits promises to drop those outside the sandbox; that is so
  if and only if their path is absolute (`OutsideIsDroppedIff`, with paths that are sent in
  `OutsideIsSent`). An absolute path inside is dropped if its first component begins with two dots
  (`RebaseSendsIff`).
- A remote error with an empty text makes the guest's generator return as if it had succeeded; in every
  run without an abort or a lost connection, a generator that ends throws if and only if an error with a
  text was reported (`EndOfRunIff`).
- A guest's generator waits for ever if the relay drops its request or the host leaves it without ending
  the request, as neither brings a message it listens to; exactly what ends the wait is
  `SleepsThroughIff`, and which requests the relay forwards `InferenceRequestsOfRun`.
- A failed append to the archive's log is swallowed, and after a restart the id of the lost record is
  given again (`LostRowReusesItsId`). A failed load is swallowed too, and ids start from zero again. All
  ids of a run are distinct if and only if nothing is recorded right after a reopening before which the
  last record was lost, or which could not read the log of a session with a record
  (`IdsAreDistinctIff`, with a run in `FailedLoadHidesTheFirst`).
- Comments say that `fetch_context` recovers the exact output; it does if and only if the output has at
  most 200,000 characters (`RecoveredWholeIff`).
- A worker's or critic's conversation goes on after an exception. The registry turns tool errors into
  results, but the note gate and the manager inquiry are called outside it: a transcript sent later is
  well formed if and only if no tool has thrown before (`WellFormedUntilAToolThrows`).
- An image shown by a tool is a user message; the tool messages of a turn follow its calls without
  interruption if and only if no call but the last shows one (`ContiguousIff`).
- An old parse of a usage file counts the same samples as a fresh one if and only if no recent sample is
  followed by expired versions of its id alone (`CachedCountsSameIff`, `StaleAfterRecent`); the
  "available" flag has no window and can outlive every recent use (`AvailabilityOutlivesIff`).
- A snapshot taken again under the same id keeps the files of the older one, and restoring brings those
  back too; the callers use one id, `latest`. A file with a path component named `manifest.json` is
  never restored (`SnapshotThenRestore`). A listed directory backs nothing up, and the worker pipeline
  lists just the working directory when no paths are given (`FreshSnapshotHoldsIff`).
- Thoughts emitted after a stream was closed are held back; the last of them is sent if and only if
  another kind of event follows (`LateThoughtsWait`).
- The broker's comment says slow subscribers are skipped and there is a `MAX_BUFFER`; neither exists in
  the code, and every open subscriber gets everything (`SubscriberSeesItsLifetime`).
- The migration checksum drops the sign of a 32-bit hash, so a change of one character can go unnoticed;
  exactly when is `ChecksumMissesIff`.

## Model

| member | source | states |
|---|---|---|
| JsStrings.ParsePrint | reference/Koryphaios/backend/src/lsp/client.ts:173 | reading the decimal numeral written for a length gives that length |
| JsStrings.Numerals | reference/Koryphaios/backend/src/lsp/client.ts:173 | numerals are decimal, the highest digit first |
| JsStrings.DigitsAre | reference/Koryphaios/backend/src/lsp/client.ts:170 | the ten digits |
| LspFraming.FindFrom | reference/Koryphaios/backend/src/lsp/client.ts:170 | the match is a header, no header starts before it, and no match means there is none |
| LspFraming.IsHeaderIff | reference/Koryphaios/backend/src/lsp/client.ts:170 | a header is the words, at least one digit, and an empty line |
| LspFraming.NextMessage | reference/Koryphaios/backend/src/lsp/client.ts:170-180 | a message that is cut leaves a strictly shorter buffer, so the loop ends |
| LspFraming.HeadersDoNotOverlap | reference/Koryphaios/backend/src/lsp/client.ts:170 | two header matches never share a character |
| LspFraming.LeftmostHeaderIsStable | reference/Koryphaios/backend/src/lsp/client.ts:166-171 | the leftmost complete header of a stream stays the leftmost in every longer stream |
| LspFraming.CompleteMessageIsStable | reference/Koryphaios/backend/src/lsp/client.ts:170-180 | a complete message is cut at the same place however much follows |
| LspFraming.ChunkIndependence | reference/Koryphaios/backend/src/lsp/client.ts:165-202 | feeding a stream in two parts extracts the same bodies in the same order and leaves the same buffer as feeding it at once |
| LspFraming.AnyChunking | reference/Koryphaios/backend/src/lsp/client.ts:155-202 | the same for any list of chunks |
| LspFraming.FrameIsExtracted | reference/Koryphaios/backend/src/lsp/client.ts:220-221 | one framed body in front of anything is extracted exactly, whatever text it contains |
| LspFraming.FrameOfTwo | reference/Koryphaios/backend/src/lsp/client.ts:221 | what is written for a body of two units, character by character |
| LspFraming.WriteReadRoundTrip | reference/Koryphaios/backend/src/lsp/client.ts:165-255 | any list of bodies, framed as written and delivered in any chunking, comes out as that list with an empty buffer |
| LspFraming.Utf8IsLongerUnlessAscii | reference/Koryphaios/backend/src/lsp/client.ts:221-224 | the byte length of a text is at least its length in code units, and equal exactly for ASCII |
| LspFraming.Utf8LengthIs | reference/Koryphaios/backend/src/lsp/client.ts:224 | the byte length is the sum over the code points of the lengths of RFC 3629, section 3 |
| LspFraming.ByteFrameExtractedIffAscii | reference/Koryphaios/backend/src/lsp/client.ts:170-180 | in front of any further output, a message framed by byte count is the next body extracted exactly when it is ASCII |
| LspFraming.NonAsciiSwallowsWhatFollows | reference/Koryphaios/backend/src/lsp/client.ts:173-180 | otherwise the client waits for as many further units as there are bytes too many and appends them to the body |
| LspClient.HandleAllSettlesOnce | reference/Koryphaios/backend/src/lsp/client.ts:182-200 | handling any bodies keeps every registered request in the table or settled, and settled once |
| LspClient.WaitsUntilAnswered | reference/Koryphaios/backend/src/lsp/client.ts:186-190 | a request leaves the table exactly when some body answers it |
| LspClient.FirstAnswerSettles | reference/Koryphaios/backend/src/lsp/client.ts:186-190 | the first answer is the one the caller gets |
| LspClient.OnlyAnswersSettle | reference/Koryphaios/backend/src/lsp/client.ts:186-190 | whatever bodies settle is a request that was waiting, with a body that answers it |
| LspClient.LastDiagnosticsStay | reference/Koryphaios/backend/src/lsp/client.ts:193-197 | of each path the diagnostics are those of the last body that brought some |
| LspClient.Client.HandleData | reference/Koryphaios/backend/src/lsp/client.ts:165-202 | buffer and handled bodies are those of the whole stream received so far, and the newly extracted bodies were handled in order |
| LspClient.Client.TakeMessage | reference/Koryphaios/backend/src/lsp/client.ts:169-180 | one round of the loop takes the next complete message or finds there is none |
| LspClient.Client.Dispatch | reference/Koryphaios/backend/src/lsp/client.ts:182-200 | one body has exactly the effect of the table function: resolve and forget its request, record diagnostics |
| LspClient.Client.SendRequest | reference/Koryphaios/backend/src/lsp/client.ts:212-225 | a request gets an id never used before and is written as one frame |
| LspClient.Client.Register | reference/Koryphaios/backend/src/lsp/client.ts:227-228 | the resolver is entered under its id and nothing else changes |
| LspClient.Client.TimerFires | reference/Koryphaios/backend/src/lsp/client.ts:230-235 | the timer settles a request that still waits, and only that |
| LspClient.Client.Notify | reference/Koryphaios/backend/src/lsp/client.ts:249-254 | a notification is written as one frame |
| LspClient.WrittenIsHandled | reference/Koryphaios/backend/src/lsp/client.ts:165-255 | what one client wrote is what another, fed its output, has extracted, with nothing left in its buffer |
| RelayPolicy.FindTier | reference/Koryphaios/relay/server.ts:78 | finds a tier with the id if and only if there is one |
| RelayPolicy.FindTierIsFirst | reference/Koryphaios/relay/server.ts:78 | of several tiers with one id the first counts |
| RelayPolicy.TierForIs | reference/Koryphaios/relay/server.ts:77-81 | a lookup gives the own tier, else the default, else the first, and none only if there is none |
| RelayPolicy.AnyPatternWill | reference/Koryphaios/relay/server.ts:83-90 | a path is allowed exactly when some pattern, wherever it stands, allows it |
| RelayPolicy.PlainPattern | reference/Koryphaios/relay/server.ts:86-88 | a pattern without stars admits exactly what begins with it, and itself without a slash at its end |
| RelayPolicy.StarPatterns | reference/Koryphaios/relay/server.ts:87 | one star says as much as two, and a star alone admits everything |
| RelayPolicy.DotSlashIsIgnored | reference/Koryphaios/relay/server.ts:85-87 | a leading `./` makes no difference in a path or a pattern |
| RelayPolicy.DirectoryPattern | reference/Koryphaios/relay/server.ts:83-90 | a pattern `dir/**` admits exactly the directory and what lies below it |
| RelayPolicy.AllowedModel | reference/Koryphaios/relay/server.ts:718-719 | the model is empty or the requested one and allowed, and an allowed request is kept |
| RelayPolicy.AllowedReasoning | reference/Koryphaios/relay/server.ts:720-722 | the reasoning level is empty or the requested one and allowed for the model, and an allowed request is kept |
| RelayPolicy.NormalizedLookups | reference/Koryphaios/backend/src/collaboration/manager.ts:11-36 | in a normalised policy the default tier exists, tier ids are safe, and every lookup lands on the guest's own tier or else on the default |
| RelayPolicy.NormalizedPolicyIs | reference/Koryphaios/backend/src/collaboration/manager.ts:11-36 | which tiers, which default and which switches come out: the patch's where it gives usable ones, else the current ones; the first tier where neither default is there |
| RelayPolicy.CleanTiersAre | reference/Koryphaios/backend/src/collaboration/manager.ts:12-26 | the tiers that come out are exactly the tidied given ones with a safe id and a name |
| RelayPolicy.CleanTiersAppend | reference/Koryphaios/backend/src/collaboration/manager.ts:12-26 | and they keep their order |
| RelayPolicy.SafeTierIdIff | reference/Koryphaios/backend/src/collaboration/manager.ts:9 | a safe id has 1 to 32 small letters, digits, `_` or `-` and starts with neither sign |
| RelayPolicy.NormalizeFailsIff | reference/Koryphaios/backend/src/collaboration/manager.ts:12-27 | normalising throws exactly when no given tier (of the first 24) has a safe id and a name |
| RelayRuns.StepKeepsRolling | reference/Koryphaios/relay/server.ts:687-691 | every handler keeps the history equal to the last 200 history events of the host's log |
| RelayRuns.StepKeepsAgreed | reference/Koryphaios/relay/server.ts:577-757 | every handler keeps guest table and sockets in agreement, and unadmitted guests without any event or history |
| RelayRuns.ReachableStates | reference/Koryphaios/relay/server.ts:577-757 | in every reachable state each guest record agrees with its socket's copy, no unadmitted guest has been sent an event or a history, and the history is the last 200 events |
| RelayLaws.WhoSeesWhat | reference/Koryphaios/relay/server.ts:92-101 | a chat line, diff, status or log line is sent to a guest that is admitted and not excluded exactly if its tier's own permission for that kind says so |
| RelayLaws.NobodyElseSees | reference/Koryphaios/relay/server.ts:678-685 | and to nobody else |
| RelayLaws.OtherBroadcasts | reference/Koryphaios/relay/server.ts:678-697 | any other event goes to every admitted guest that is not excluded and has a tier; an approval also to the guest it names |
| RelayLaws.BroadcastLeaves | reference/Koryphaios/relay/server.ts:687-691 | a broadcast changes nothing but what guests were sent and, for three kinds, the history, which drops its first entry at the 201st |
| RelayLaws.InferenceGoesToOne | reference/Koryphaios/relay/server.ts:639-649 | events and ends of an inference go to the guest they name, without its id, and to no one else |
| RelayLaws.SignallingGoesToOne | reference/Koryphaios/relay/server.ts:634-637 | signalling goes to the guest it names, as it is, and to no one else |
| RelayLaws.CatalogGoesToAdmitted | reference/Koryphaios/relay/server.ts:651-656 | the catalog goes to every admitted guest and to no one else |
| RelayLaws.Rejection | reference/Koryphaios/relay/server.ts:657-660 | a rejected guest is told so, and nothing else happens |
| RelayLaws.Admission | reference/Koryphaios/relay/server.ts:661-669 | an admitted guest is on the granted tier in both tables and gets its part of the history; every admitted guest whose tier shows participants gets the news |
| RelayLaws.Assignment | reference/Koryphaios/relay/server.ts:671-677 | assigning a tier that exists moves the guest in both tables and tells it alone; any other does nothing |
| RelayLaws.FilterAllowedIs | reference/Koryphaios/relay/server.ts:668 | the history on admission has each entry exactly if the tier's permission for its kind allows it |
| RelayLaws.FilterAllowedAppend | reference/Koryphaios/relay/server.ts:668 | in order |
| RelayLaws.FilterSwitchesIs | reference/Koryphaios/relay/server.ts:613-615 | on automatic admission it has chat always, diffs and statuses as the session's switches say |
| RelayLaws.FilterSwitchesAppend | reference/Koryphaios/relay/server.ts:613-615 | in order as well |
| RelayLaws.HostArrives | reference/Koryphaios/relay/server.ts:582-589 | a host that connects is told of every guest |
| RelayLaws.HostLeaves | reference/Koryphaios/relay/server.ts:745-749 | a host that goes is reported to every guest |
| RelayLaws.GuestAsks | reference/Koryphaios/relay/server.ts:591-602 | a guest that must be approved is entered as waiting, told so, and announced to the host alone |
| RelayLaws.GuestEnters | reference/Koryphaios/relay/server.ts:591-622 | a guest that need not be is admitted at once, gets its history, and is announced to the host, and to all others if participants are shown |
| RelayLaws.GuestLeaves | reference/Koryphaios/relay/server.ts:751-756 | a guest that goes is taken off the table and reported to the host and everyone who stays |
| RelayLaws.GuestMessageGoes | reference/Koryphaios/relay/server.ts:698-737 | which of a guest's messages reach the host, with which tier, by admission and permissions; nothing else changes |
| RelayLaws.PushedPolicyIs | reference/Koryphaios/relay/server.ts:504 | each part of the policy is as pushed or as it was, and approval of prompts is always required |
| RelayLaws.PushedPolicyReaches | reference/Koryphaios/relay/server.ts:505-511 | every guest keeps its tier if the policy has it, else gets the default, in both tables, and is told the policy and then the tier |
| RelayLateJoin.BroadcastView | reference/Koryphaios/relay/server.ts:678-691 | a broadcast adds to an admitted guest's view exactly the event, if its tier allows it and it is not excluded |
| RelayLateJoin.StepView | reference/Koryphaios/relay/server.ts:577-757 | any handler that leaves a guest alone adds to its view exactly what a broadcast shows it |
| RelayLateJoin.RunFollows | reference/Koryphaios/relay/server.ts:577-757 | over any run the view is what it was followed by what the log since shows |
| RelayLateJoin.AdmissionView | reference/Koryphaios/relay/server.ts:657-669 | right after admission the view is the allowed part of the history, and nothing else |
| RelayLateJoin.LateJoinView | reference/Koryphaios/relay/server.ts:657-691 | over every run, a guest admitted once sees the allowed part of the last 200 history events at its admission followed by the allowed part of everything later: no gap, no duplicate |
| RelayLateJoin.AutoJoinHistoryIff | reference/Koryphaios/relay/server.ts:613-615 | on automatic admission the shown history is the tier's for every history exactly when the session switches match the tier |
| RelayLateJoin.PromptsAreLegit | reference/Koryphaios/relay/server.ts:698-737 | every prompt a handler forwards is from an admitted guest whose tier may prompt, cut to 4000 characters, with an empty or an allowed model and reasoning level |
| RelayLateJoin.PushedPolicyPlacesEveryGuest | reference/Koryphaios/relay/server.ts:499-513 | after a policy with a default tier is pushed every guest is on a tier it has, and keeps its own if that still exists |
| RelayLateJoin.ReachableLookups | reference/Koryphaios/relay/server.ts:77-81 | in every reachable state of a session that starts with and is pushed only policies whose default tier exists, the lookup lands on the guest's own tier if there is one and on the default if not |
| RelayLateJoin.InferenceRequestForwardedIff | reference/Koryphaios/relay/server.ts:698-715 | an inference request reaches the host exactly when the guest is admitted, its tier may use the host's providers and the host is connected; otherwise nobody is told |
| RelayLateJoin.InferenceRequestsOfRun | reference/Koryphaios/relay/server.ts:698-715 | over any run that leaves the guest's standing alone the host is sent exactly the requests made while it is connected, in order, if the tier may use its providers, and none if not |
| RelayServer.RelaySession.HostOpens | reference/Koryphaios/relay/server.ts:582-589 | makes the transition of a host connecting |
| RelayServer.RelaySession.HostCloses | reference/Koryphaios/relay/server.ts:745-749 | makes the transition of the host disconnecting |
| RelayServer.RelaySession.GuestOpens | reference/Koryphaios/relay/server.ts:591-622 | makes the transition of a guest connecting: pending, or admitted with its history |
| RelayServer.RelaySession.GuestCloses | reference/Koryphaios/relay/server.ts:751-755 | makes the transition of a guest leaving |
| RelayServer.RelaySession.HostSays | reference/Koryphaios/relay/server.ts:634-697 | makes the transition of any host message: routed, decided, assigned or broadcast |
| RelayServer.RelaySession.DecideJoin | reference/Koryphaios/relay/server.ts:657-670 | makes the transition of a join decision |
| RelayServer.RelaySession.BroadcastToGuests | reference/Koryphaios/relay/server.ts:678-697 | makes the transition of a broadcast, with the rolling history |
| RelayServer.RelaySession.GuestSays | reference/Koryphaios/relay/server.ts:699-736 | makes the transition of any guest message |
| RelayServer.RelaySession.PolicyPushed | reference/Koryphaios/relay/server.ts:499-512 | makes the transition of a pushed policy, on every guest and its socket |
| RelayServer.RelaySession.TellPolicy | reference/Koryphaios/relay/server.ts:506-511 | moves and informs one guest |
| HybridTransport.RelayClient.PeerBroadcast | reference/Koryphaios/backend/src/collaboration/relay-client.ts:77-85 | the ids reported are exactly the open channels whose send did not throw, each once, and exactly those carried the message |
| HybridTransport.RelayClient.Broadcast | reference/Koryphaios/backend/src/collaboration/relay-client.ts:235-239 | the relay gets one copy, excluding exactly the guests reached directly; nothing happens when disconnected |
| HybridTransport.OneCopy | reference/Koryphaios/relay/server.ts:678-685 | a broadcast adds one copy, over one of the two channels, to a guest that was reached directly or is admitted and permitted, and none to anyone else |
| HybridTransport.QuietStep | reference/Koryphaios/backend/src/collaboration/relay-client.ts:235-239 | any step that leaves a guest's standing alone adds to what it received exactly the broadcast due to it |
| HybridTransport.ExactlyOnce | reference/Koryphaios/backend/src/collaboration/relay-client.ts:77-85 | over any run, whatever channels open, close or refuse, the two channels together bring a guest each broadcast due to it exactly once |
| HybridTransport.OnlyAllowedIff | reference/Koryphaios/backend/src/collaboration/relay-client.ts:77-85 | over any run a guest receives nothing its tier does not allow exactly when no such broadcast reaches it over its channel |
| HybridTransport.WithheldArrivesIff | reference/Koryphaios/backend/src/collaboration/relay-client.ts:77-85 | a broadcast the relay would withhold is received exactly when its guest is reached directly |
| HybridTransport.HiddenChatArrives | reference/Koryphaios/backend/src/collaboration/relay-client.ts:235-239 | a chat line reaches a guest that may not see the chat over its channel, and not over the relay |
| PeerPrompts.RelayForwards | reference/Koryphaios/relay/server.ts:699-736 | the relay forwards a prompt of an admitted guest whose present tier may prompt, and no other |
| PeerPrompts.ChannelPromptIs | reference/Koryphaios/backend/src/collaboration/relay-client.ts:111-133 | a dispatched prompt has the message's name cut to 40 characters, the kept tier as role, and what that tier grants |
| PeerPrompts.HandlingIs | reference/Koryphaios/backend/src/collaboration/relay-client.ts:60-91 | what the next message of the relay, or its loss, does to the channels: only an offer fixes a tier |
| PeerPrompts.PushingIs | reference/Koryphaios/backend/src/collaboration/relay-client.ts:217-226 | a push changes the relay's policy at once and the host's when it is answered |
| PeerPrompts.GetsPastIff | reference/Koryphaios/backend/src/collaboration/relay-client.ts:111-133 | a prompt gets through on the channel and not on the relay exactly when the kept tier may prompt and the present one may not |
| PeerPrompts.SamePromptsIff | reference/Koryphaios/backend/src/collaboration/relay-client.ts:115-132 | two tiers make the same of every prompt exactly when they grant the same commands, models, levels and automatic execution |
| PeerPrompts.PathsAgreeIff | reference/Koryphaios/backend/src/collaboration/relay-client.ts:111-133 | the two paths treat every prompt of a guest alike, its name aside, exactly when neither takes any or both do under one tier id with the same grants |
| PeerPrompts.ReachableIsGrounded | reference/Koryphaios/backend/src/collaboration/relay-client.ts:60-75 | in every run each channel's tier is one its guest had, while admitted, when it made an offer |
| PeerPrompts.PoliciesOfRun | reference/Koryphaios/backend/src/collaboration/relay-client.ts:217-226 | the relay goes by the policy pushed last, the host by the one answered last |
| PeerPrompts.GetsPastInRunIff | reference/Koryphaios/backend/src/collaboration/relay-client.ts:111-133 | in every run of relay, pushes, signalling and closing channels, exactly when a prompt gets through that the relay would not forward: the kept tier may prompt under the policy answered last, and the guest has left or its tier may not under the one pushed last |
| PeerPrompts.GettingPastNeedsAChange | reference/Koryphaios/backend/src/collaboration/relay-client.ts:111-133 | while the guest is on the tier of its channel and no push went unanswered, no prompt gets past the relay |
| PeerPrompts.DemotedGuestGoesOn | reference/Koryphaios/relay/server.ts:671-676 | after a guest is assigned a tier that may not prompt, every prompt on its channel still gets through, in every later state until channel, policy or guest change |
| PeerPrompts.DepartedGuestGoesOn | reference/Koryphaios/relay/server.ts:750-756 | a guest that leaves while the host is not connected goes on prompting in every later state until its channel goes or a policy is pushed |
| PeerPrompts.DemotionHappens | reference/Koryphaios/backend/src/collaboration/relay-client.ts:60-75 | a run from a new session to such a state, for any policy with automatic admission and two such tiers |
| ProjectScan.WalkStaysWithinBudget | reference/Koryphaios/backend/src/collaboration/project-sync.ts:84-108 | the walk never collects more bytes than the budget, no file over the file limit, and its total is the sum of what it collected |
| ProjectScan.SmallProjectIsComplete | reference/Koryphaios/backend/src/collaboration/project-sync.ts:72-117 | a project under the budget is collected whole, in walk order |
| ProjectScan.EligibleIff | reference/Koryphaios/backend/src/collaboration/project-sync.ts:77-113 | a file is eligible exactly if directories that are not skipped lead to it, its name is not filtered, it is text and has at most 1,000,000 bytes; it is sent under its path with its content and time |
| ProjectScan.EdgeOfBudget | reference/Koryphaios/backend/src/collaboration/project-sync.ts:84-108 | a file that still fits is taken, one that does not is passed over, and at 60,000,000 bytes the walk stops |
| ProjectScan.WalkLiesBelow | reference/Koryphaios/backend/src/collaboration/project-sync.ts:77-113 | what a walk adds lies below its directory under one of its names, after what was there |
| ProjectScan.WalkKeepsPathsUnique | reference/Koryphaios/backend/src/collaboration/project-sync.ts:77-113 | distinct sibling names give a scan without repeated paths |
| ProjectScan.Scanner.Walk | reference/Koryphaios/backend/src/collaboration/project-sync.ts:77-113 | the recursive walk collects exactly what the specification collects |
| ProjectSync.SyncState.BuildSync | reference/Koryphaios/backend/src/collaboration/project-sync.ts:131-154 | ships exactly the new and touched files in scan order and exactly the paths that disappeared, each once; the record becomes the scan's mtimes |
| ProjectSync.SyncState.Forget | reference/Koryphaios/backend/src/collaboration/project-sync.ts:145-151 | exactly the recorded paths not seen are dropped and reported, each once |
| ProjectSync.SandboxHost.ApplyProjectSync | reference/Koryphaios/backend/src/collaboration/remote-provider-host.ts:122-141 | deletions, then the files in order, are applied to this guest's sandbox and no other |
| ProjectSync.AcceptedIff | reference/Koryphaios/backend/src/collaboration/remote-provider-host.ts:131-135 | the host takes a path exactly if its text is not empty, does not start with a slash and has no two dots in a row |
| ProjectSync.SyncedIsBuildThenApply | reference/Koryphaios/backend/src/collaboration/remote-provider-host.ts:122-141 | packaging and applying compose to one sync |
| ProjectSync.WritesAt | reference/Koryphaios/backend/src/collaboration/remote-provider-host.ts:134-139 | writing the changed files sets exactly the accepted changed paths and leaves all others |
| ProjectSync.SyncConvergesIff | reference/Koryphaios/backend/src/collaboration/project-sync.ts:131-154 | one sync brings any sandbox to the scan if and only if unchanged files were already there and everything else there was recorded |
| ProjectSync.ShippedIff | reference/Koryphaios/backend/src/collaboration/project-sync.ts:136-143 | a file is shipped exactly when it is in the scan and new or touched, so never shipped and deleted at once |
| ProjectSync.ChangedFilesAreNeeded | reference/Koryphaios/backend/src/collaboration/project-sync.ts:139-141 | a package that leaves out a changed file fails on some sandbox the record allows |
| ProjectSync.DeletionsAreNeeded | reference/Koryphaios/backend/src/collaboration/project-sync.ts:145-151 | so does one that leaves out the deletion of a path that disappeared |
| ProjectSync.DeltaSyncConverges | reference/Koryphaios/backend/src/collaboration/project-sync.ts:131-154 | after every sync of every run in which an equal mtime means equal content, the sandbox is the accepted part of the latest scan and the record is its mtimes |
| ProjectSync.TargetIsWholeScanIff | reference/Koryphaios/backend/src/collaboration/remote-provider-host.ts:131-135 | the sandbox is the whole scan exactly when every path is accepted; two dots inside a name are enough to be left out |
| ProjectSync.RefusedSyncRecoversIff | reference/Koryphaios/backend/src/collaboration/remote-provider-host.ts:195-228 | after a refused turn the next sync converges exactly when what the refused one shipped or deleted was touched again or in place |
| ProjectSync.EditsBackStayInStep | reference/Koryphaios/backend/src/providers/remote-provider.ts:134-143 | an edit of the remote agent, written back and recorded, keeps the next sync converging |
| ProjectRuns.SyncedAt | reference/Koryphaios/backend/src/collaboration/remote-provider-host.ts:122-141 | a sync does to each accepted path what it says of it, and nothing to any other |
| ProjectRuns.HostHoldsItsNews | reference/Koryphaios/backend/src/collaboration/remote-provider-host.ts:122-141 | over any run of syncs of several projects, refused turns, edits and new catalogs, the sandbox holds of every accepted path what the host was last told |
| ProjectRuns.RecordHasClientPaths | reference/Koryphaios/backend/src/providers/remote-provider.ts:103-108 | a project's record has exactly the paths last said to be there, and none after a new catalog |
| ProjectRuns.ScanIsNews | reference/Koryphaios/backend/src/collaboration/project-sync.ts:131-154 | after a scan is packaged, what was last said of every path of the project is what the scan holds |
| ProjectRuns.MixedRunConvergesIff | reference/Koryphaios/backend/src/providers/remote-provider.ts:103-142 | over any such run a sync brings the sandbox to its scan exactly when of every accepted path the host was last told what the project's record was |
| ProjectRuns.NothingRefusedNothingMissed | reference/Koryphaios/backend/src/collaboration/remote-provider-host.ts:185-228 | with one project, no refused turn and no new catalog that is always so, whatever edits are written back |
| ProjectRuns.FirstSyncConvergesIff | reference/Koryphaios/backend/src/collaboration/remote-provider-client.ts:19-49 | the first sync under a new catalog, or of a second project, converges exactly when the project has every path in the sandbox |
| ProjectRuns.LeftBehindForGood | reference/Koryphaios/backend/src/collaboration/remote-provider-client.ts:19-49 | what the sandbox holds when a new catalog comes stays as it is while no project has its path, over any later run, and no sync of such a run converges |
| ProjectRuns.RefusedThenUnchanged | reference/Koryphaios/backend/src/collaboration/project-sync.ts:136-143 | after a refused first turn the sandbox stays empty however often the unchanged project is sent again |
| Inference.ResumingIs | reference/Koryphaios/backend/src/collaboration/relay-guest-client.ts:170-177 | a resumed generator yields the oldest event; with none left it throws a failure with a text, else returns if told of an end, else sleeps |
| Inference.DeliveryIs | reference/Koryphaios/backend/src/collaboration/relay-guest-client.ts:118-132 | a message reaches the registered stream it names and no other, and wakes its generator |
| Inference.HostSendingIs | reference/Koryphaios/backend/src/collaboration/remote-provider-host.ts:233-247 | what the host emits goes on the wire behind the rest, and so does its end |
| Inference.OtherStepsAre | reference/Koryphaios/backend/src/collaboration/relay-guest-client.ts:89-182 | what an opening, an abort, an early return and the end of the connection do to each stream |
| Inference.StepKeepsInv | reference/Koryphaios/backend/src/collaboration/relay-guest-client.ts:98-182 | every step of host, wire, client and generator keeps the protocol's invariant |
| Inference.RunKeepsInv | reference/Koryphaios/backend/src/collaboration/relay-guest-client.ts:98-182 | the invariant holds in every reachable state |
| Inference.EndIsLast | reference/Koryphaios/backend/src/collaboration/remote-provider-host.ts:240-246 | once the end of a request is on the wire it is the only one and nothing for that request follows |
| Inference.PipeIsOrderedAndComplete | reference/Koryphaios/backend/src/collaboration/relay-guest-client.ts:143-182 | in every reachable state what was yielded is a prefix of what was queued, itself a prefix of what the host emitted; a normal return has yielded all of it; a throw comes after draining; the host sends one end at most, after its events; a set wake slot means an empty queue and an unfinished stream |
| Inference.SleepersAreWoken | reference/Koryphaios/backend/src/collaboration/relay-guest-client.ts:148-176 | a sleeping generator whose request has ended still has a message on its way, and any message, abort or close wakes it |
| Inference.RunKeepsTold | reference/Koryphaios/backend/src/collaboration/relay-guest-client.ts:89-176 | in every run a failure is the host's report, an abort or a lost connection, and a stream that finished with none that throws was told of none |
| Inference.EndOfRunIff | reference/Koryphaios/backend/src/collaboration/relay-guest-client.ts:160-176 | in every run a generator returns only after an end with no error or an empty one, and throws only the host's report or the text of an abort or lost connection that happened; without those it returns exactly if the report has no text, and otherwise throws it |
| Inference.SleepsThroughIff | reference/Koryphaios/backend/src/collaboration/relay-guest-client.ts:89-176 | a sleeping generator sleeps through a run exactly when the run brings no message for it, no abort and no end of its connection |
| Inference.SilentHostIsWaitedFor | reference/Koryphaios/backend/src/collaboration/relay-guest-client.ts:98-134 | once nothing is on its way, a generator whose host falls silent sleeps until it is aborted or its connection ends |
| Inference.DroppedRequestIsWaitedFor | reference/Koryphaios/relay/server.ts:706-715 | a request that never reaches the host is waited for in the same way |
| GuestClient.PendingStream.WakeUp | reference/Koryphaios/backend/src/collaboration/relay-guest-client.ts:152 | wakes the sleeper, if any, and clears the slot |
| GuestClient.PendingStream.PushEvent | reference/Koryphaios/backend/src/collaboration/relay-guest-client.ts:155 | makes the protocol's push transition |
| GuestClient.PendingStream.MarkDone | reference/Koryphaios/backend/src/collaboration/relay-guest-client.ts:156 | makes the protocol's end transition |
| GuestClient.PendingStream.MarkFailed | reference/Koryphaios/backend/src/collaboration/relay-guest-client.ts:157 | makes the protocol's failure transition |
| GuestClient.PendingStream.Next | reference/Koryphaios/backend/src/collaboration/relay-guest-client.ts:170-177 | from one suspension to the next: yields the oldest event, else throws, returns or sleeps |
| GuestClient.RelayGuestClient.Open | reference/Koryphaios/backend/src/collaboration/relay-guest-client.ts:147-158 | a request gets a fresh stream of its own |
| GuestClient.RelayGuestClient.Forget | reference/Koryphaios/backend/src/collaboration/relay-guest-client.ts:178-181 | removes this request's stream and no other |
| GuestClient.RelayGuestClient.HandleMessage | reference/Koryphaios/backend/src/collaboration/relay-guest-client.ts:98-134 | a message has the protocol's effect on the stream it names and touches no other object |
| GuestClient.RelayGuestClient.ConnectionClosed | reference/Koryphaios/backend/src/collaboration/relay-guest-client.ts:89-94 | every registered stream fails and none stays registered |
| ProviderHost.Host.HandleInferenceRequest | reference/Koryphaios/backend/src/collaboration/remote-provider-host.ts:185-250 | exactly one end, after all events: the refusal's error, or the rewritten events up to the abort followed by done, or by the provider's error |
| ProviderHost.ServedIff | reference/Koryphaios/backend/src/collaboration/remote-provider-host.ts:195-213 | a request is served exactly if its provider is shared and the first tier with its id, under the host's policy, may use providers and has the model or any |
| ProviderHost.RefusalSays | reference/Koryphaios/backend/src/collaboration/remote-provider-host.ts:195-213 | which text each refusal carries, in the order of the checks |
| ProviderHost.OutgoingIs | reference/Koryphaios/backend/src/collaboration/remote-provider-host.ts:233-239 | each event of the provider goes out once, as rewritten, unless it cannot be |
| ProviderHost.OutgoingAppend | reference/Koryphaios/backend/src/collaboration/remote-provider-host.ts:233-239 | in order |
| ProviderHost.CompleteAnswerOnTheWire | reference/Koryphaios/backend/src/collaboration/remote-provider-host.ts:233-246 | such an answer carries its events in order, one end, and nothing after it |
| ProviderHost.RelativeToAt | reference/Koryphaios/backend/src/collaboration/remote-provider-host.ts:150 | the relative path is the rest of a path inside the root and starts with `..` for any other |
| ProviderHost.RebaseSendsIff | reference/Koryphaios/backend/src/collaboration/remote-provider-host.ts:149-153 | an edit at an absolute path is sent exactly when it lies in the sandbox and its first component does not begin with two dots, and then names the same file |
| ProviderHost.OutsideIsDroppedIff | reference/Koryphaios/backend/src/collaboration/remote-provider-host.ts:143-155 | an edit outside the sandbox is dropped exactly when its path is absolute; a relative one is sent on as it is |
| ProviderHost.OutsideIsSent | reference/Koryphaios/backend/src/collaboration/remote-provider-host.ts:149-154 | for every sandbox there are relative paths, with the step up first or hidden later, that lead outside it and are sent |
| ProviderHost.RelativeInsideIff | reference/Koryphaios/backend/src/collaboration/remote-provider-host.ts:149-154 | a relative path that goes up and then down stays inside exactly when it comes back down the components it went up |
| ProviderHost.AcceptedStaysInside | reference/Koryphaios/backend/src/collaboration/remote-provider-host.ts:131-138 | a path the host accepts, followed from the sandbox, never leads out of it |
| ToolCalls.AssemblyIsPerId | reference/Koryphaios/backend/src/kory/manager.ts:1701-1723 | for any interleaving, the calls completed and the drafts open are those of each id read on its own, in the order of stops |
| ToolCalls.ContentIsJoined | reference/Koryphaios/backend/src/kory/manager.ts:1591-1704 | the content is what the content events carried, in order, and the flag says whether a call was started |
| ToolCalls.BracketedInput | reference/Koryphaios/backend/src/kory/manager.ts:1701-1710 | an id started once has as input the concatenation of its deltas |
| ToolCalls.CallsFollowStops | reference/Koryphaios/backend/src/kory/manager.ts:1711-1722 | if every stop closes an open draft the calls come out in the order of the stops |
| ToolCalls.BracketedStream | reference/Koryphaios/backend/src/kory/manager.ts:1701-1722 | if every id is started once, then fed, then stopped once, in any interleaving, there is exactly one call per stop, in the order of the stops, with its own name and the concatenation of its own deltas, and nothing is left over |
| ToolCalls.BracketIff | reference/Koryphaios/backend/src/kory/manager.ts:1701-1722 | what started once, fed and stopped once means: a start, deltas, a stop |
| ToolCalls.SeenAt | reference/Koryphaios/backend/src/kory/manager.ts:1583-1590 | the part of a stream that is looked at ends at the abort, at the first error event or at its end |
| ToolCalls.ProcessStream | reference/Koryphaios/backend/src/kory/manager.ts:1582-1730 | the loop throws the first error event, and otherwise assembles everything before the abort |
| TurnLoop.EachCallIsAnsweredOnce | reference/Koryphaios/backend/src/kory/manager.ts:1206-1242 | in a well-formed transcript the tool messages after an assistant message carry exactly its call ids, in order |
| TurnLoop.PruningKeepsOwed | reference/Koryphaios/backend/src/kory/manager.ts:1905-1953 | pruning leaves the pairing of calls and tool messages as it is |
| TurnLoop.ContiguousIff | reference/Koryphaios/backend/src/kory/manager.ts:1206-1242 | the tool messages that the loop appends follow their calls directly exactly when no call but the last shows an image |
| TurnLoop.ToolMessagesAt | reference/Koryphaios/backend/src/kory/manager.ts:1206-1242 | each call gets one tool message under its id with what its tool gave, and behind it a user message if an image was shown; in order, and nothing more |
| TurnLoop.AssistantMessageIs | reference/Koryphaios/backend/src/kory/manager.ts:1730-1739 | a turn adds first one assistant message with the joined content and the ids of the completed calls |
| TurnLoop.ContinuesIff | reference/Koryphaios/backend/src/kory/manager.ts:1143-1243 | the loop goes on exactly after a turn without abort, error event or throwing tool that completed a call which may run |
| TurnLoop.Manager.ApplyContextPruning | reference/Koryphaios/backend/src/kory/manager.ts:1905-1953 | overwrites in place exactly the texts that the pruning function changes |
| TurnLoop.Manager.RunTools | reference/Koryphaios/backend/src/kory/manager.ts:1206-1242 | if no abort or exception intervenes, adds one tool message per call in order, and that is the only way it completes |
| TurnLoop.Manager.RunTurn | reference/Koryphaios/backend/src/kory/manager.ts:1143-1243 | a turn lets the loop go on exactly when the stream ended by itself with calls, they were allowed, and all ran; then it added exactly its messages |
| TurnLoop.Manager.HandleDirectly | reference/Koryphaios/backend/src/kory/manager.ts:1133-1244 | whatever streams, aborts, cancellations, exceptions and prunings occur, every transcript sent to a provider is well formed and is the one before plus the last turn's messages, in at most 25 requests |
| AgentThread.Assemble | reference/Koryphaios/backend/src/kory/manager.ts:2433-2489 | the thread's loop throws if the stream holds an error event, and otherwise assembles all of it |
| AgentThread.TurnKeepsWellFormedIff | reference/Koryphaios/backend/src/kory/manager.ts:2495-2521 | a turn of a worker or critic keeps its transcript well formed exactly when it was so and no tool throws; nothing repairs it later |
| AgentThread.AddedIs | reference/Koryphaios/backend/src/kory/manager.ts:2490-2517 | a turn adds an assistant message and the results of the tools before the first that throws, none archived; nothing if its stream has an error event |
| AgentThread.CrashesIff | reference/Koryphaios/backend/src/kory/manager.ts:2433-2521 | a turn crashes exactly if its stream has an error event or a tool of a completed call throws, and goes on exactly if it does not and completed a call |
| AgentThread.RunIs | reference/Koryphaios/backend/src/kory/manager.ts:2357-2374 | a run makes the environment's turns in order until one does not go on or they are used up, and sends before each the transcript so far |
| AgentThread.AnswerIs | reference/Koryphaios/backend/src/kory/manager.ts:2273-2318 | an answer begins with the user's message at the end of the first transcript sent |
| AgentThread.AgentThread.ProcessTurn | reference/Koryphaios/backend/src/kory/manager.ts:2401-2522 | one request is sent; nothing is added if the stream fails, else the assistant message and those of the tools that ran; crashes exactly when the stream fails or a tool throws, and goes on exactly when there were calls and all ran |
| AgentThread.AgentThread.RunThread | reference/Koryphaios/backend/src/kory/manager.ts:2357-2374 | makes exactly the turns of the run, stopping after the first that does not go on, and crashes exactly when its last turn does |
| AgentThread.AgentThread.SendMessage | reference/Koryphaios/backend/src/kory/manager.ts:2273-2318 | appends the message and makes exactly one such run |
| AgentThread.WellFormedUntilAToolThrows | reference/Koryphaios/backend/src/kory/manager.ts:2273-2522 | over a whole conversation, a transcript sent to a provider is well formed exactly when no tool threw in any turn before it, however many messages ago |
| Pruning.ShapeOnlyGrows | reference/Koryphaios/backend/src/kory/manager.ts:1921-1952 | over every run messages are only added: none is removed or changes its role, call ids or archive id |
| Pruning.UntouchedIff | reference/Koryphaios/backend/src/kory/manager.ts:1927-1936 | a message is unchanged exactly when it is no archived output, was pruned before, or is neither hidden, stale nor oversized |
| Pruning.StubbedIff | reference/Koryphaios/backend/src/kory/manager.ts:1913-1950 | over any run an archived output keeps its text until the first pruning that finds it hidden, stale or oversized, and is stubbed from then on |
| Pruning.HiddenIff | reference/Koryphaios/backend/src/kory/manager.ts:1929 | an output is hidden exactly if the archive has an entry of its id marked so |
| Pruning.ResultAdds | reference/Koryphaios/backend/src/kory/manager.ts:1873-1898 | a tool result adds one message answering its call, and, if it is to be archived, its output as an entry cut to 200,000 characters |
| Pruning.PruneTwice | reference/Koryphaios/backend/src/kory/manager.ts:1905-1953 | pruning again at the same turn changes nothing |
| Pruning.OpKeepsRecoverable | reference/Koryphaios/backend/src/kory/manager.ts:1873-1953 | every result, message, pruning and hide or show keeps archived outputs recoverable |
| Pruning.PruningLosesNothing | reference/Koryphaios/backend/src/kory/manager.ts:1873-1953 | over every run, on any archive that was opened, every message with an archive id can fetch the first 200,000 characters of its original output |
| Pruning.RecoveredWholeIff | reference/Koryphaios/backend/src/kory/context-archive.ts:131 | over any run every archived output is found under its message's id, cut to 200,000 characters, and whole exactly when it has no more |
| ArchiveLog.NumberOfMakeId | reference/Koryphaios/backend/src/kory/context-archive.ts:95 | the number read back from an id is the one it was made from |
| ArchiveLog.AddedRow | reference/Koryphaios/backend/src/kory/context-archive.ts:91-96 | replaying a row with a number not used yet adds its entry under a new id and keeps entries, index and counter in order |
| ArchiveLog.ReplayRowIs | reference/Koryphaios/backend/src/kory/context-archive.ts:78-99 | what each kind of line does on loading: broken lines, entries without an id and marks of unknown entries nothing |
| ArchiveLog.SearchFinds | reference/Koryphaios/backend/src/kory/context-archive.ts:145-155 | a search finds exactly the entries whose caption or content holds the query, case aside, and as many as the limit allows |
| ArchiveLog.NewestHitsAppend | reference/Koryphaios/backend/src/kory/context-archive.ts:150-153 | the newest first |
| ArchiveLog.MarkKeepsOrder | reference/Koryphaios/backend/src/kory/context-archive.ts:82-86 | a mark keeps the order and the index |
| ArchiveLog.MarkChangesNothingIff | reference/Koryphaios/backend/src/kory/context-archive.ts:176-183 | a mark changes nothing exactly when there is no such entry or it carries that mark already |
| ContextArchive.Archive.Restart | reference/Koryphaios/backend/src/kory/context-archive.ts:70-75 | a restart keeps the log, and the archive is then what the log says |
| ContextArchive.Archive.EnsureLoaded | reference/Koryphaios/backend/src/kory/context-archive.ts:70-105 | the load loop leaves in memory the replay of the log, skipping lines that do not parse; a loaded archive is left alone |
| ContextArchive.Archive.LoadRow | reference/Koryphaios/backend/src/kory/context-archive.ts:81-96 | one line has the effect of replaying its row |
| ContextArchive.Archive.Record | reference/Koryphaios/backend/src/kory/context-archive.ts:117-137 | makes the record transition, also after earlier appends failed: the id is the next and not in use; memory and log agree afterwards exactly when they did and the row was written |
| ContextArchive.Archive.SetPrunedForAgent | reference/Koryphaios/backend/src/kory/context-archive.ts:176-183 | makes the mark transition, or reports that there is no entry; if memory and log agreed they still do exactly when the row was written, there was no entry, or it carried that mark already |
| ContextArchive.Archive.RecordUsage | reference/Koryphaios/backend/src/kory/context-archive.ts:165-169 | makes the usage transition; if memory and log agreed they still do exactly when the row was written or the usage was the last one already |
| ContextArchive.Archive.Get | reference/Koryphaios/backend/src/kory/context-archive.ts:139-142 | gives the entry with the id, exactly when there is one |
| ContextArchive.Archive.Search | reference/Koryphaios/backend/src/kory/context-archive.ts:145-155 | the first `limit` matches of the entries, newest first |
| ContextArchive.SearchEntries | reference/Koryphaios/backend/src/kory/context-archive.ts:150-153 | the counting-down loop finds the first `limit` matches from the end |
| ContextArchive.RecordingIs | reference/Koryphaios/backend/src/kory/context-archive.ts:117-137 | a record adds one entry with its texts cut, under the next id, which finds it, and its row to the log if that is written |
| ContextArchive.MarkingIs | reference/Koryphaios/backend/src/kory/context-archive.ts:176-183 | a mark changes the mark of the entry with that id and nothing else |
| ContextArchive.UsingIs | reference/Koryphaios/backend/src/kory/context-archive.ts:165-169 | a usage replaces the last one and nothing else |
| ContextArchive.RecordKeepsConsistent | reference/Koryphaios/backend/src/kory/context-archive.ts:117-137 | a record, its row written or lost, keeps everything the log has in memory and every id in use once; memory and log stay equal exactly when they were and the row is written |
| ContextArchive.OtherKeepsConsistent | reference/Koryphaios/backend/src/kory/context-archive.ts:70-183 | so does every other operation, and only a restart takes the counter back to the log's |
| ContextArchive.ReachableIsConsistent | reference/Koryphaios/backend/src/kory/context-archive.ts:70-183 | so it is in every reachable state, whatever appends fail |
| ContextArchive.ReplayRefinesMemory | reference/Koryphaios/backend/src/kory/context-archive.ts:70-183 | after any sequence of operations with restarts anywhere and no failed append, the state rebuilt from the log is the one in memory, and the k-th entry is `cx_k` |
| ContextArchive.MemoryIsAheadByLostRecords | reference/Koryphaios/backend/src/kory/context-archive.ts:107-135 | whatever appends fail, memory is ahead of the replayed log by exactly the records lost since the last restart |
| ContextArchive.WrittenEntriesAreForever | reference/Koryphaios/backend/src/kory/context-archive.ts:133-135 | an entry whose row was written is there ever after, in memory and on replay, unaltered but for its mark, whatever rows are lost and however often the log is read again |
| ArchiveReloads.CountersAfter | reference/Koryphaios/backend/src/kory/context-archive.ts:70-135 | what each event, a failed load among them, does to the numbering of memory and of the log |
| ArchiveReloads.NumberingOfRun | reference/Koryphaios/backend/src/kory/context-archive.ts:70-135 | while nothing is recorded out of place, memory stands right after the last id given, and so does the log unless the last record was lost |
| ArchiveReloads.IdsAreDistinctIff | reference/Koryphaios/backend/src/kory/context-archive.ts:70-135 | over any run with lost rows, restarts and failed loads, all ids given are distinct exactly when nothing is recorded right after a reopening before which the last record was lost or which could not read the log of a session with a record |
| ArchiveReloads.LostRowReusesItsId | reference/Koryphaios/backend/src/kory/context-archive.ts:107-135 | a record whose row is lost shares its id with whatever is recorded first after the next restart exactly when the log's numbering was up with memory's |
| ArchiveReloads.ReopeningFindsLastWritten | reference/Koryphaios/backend/src/kory/context-archive.ts:70-135 | after any such run a successful reopening finds under each id the last written record with it, its mark aside, and none if there is none |
| ArchiveReloads.FailedLoadHidesTheFirst | reference/Koryphaios/backend/src/kory/context-archive.ts:101-103 | after a failed load the first new record takes the id of the first of all and hides it |
| UsageSpec.TotalIgnoresOrder | reference/Koryphaios/backend/src/billing/cli-usage.ts:106-115 | totals depend only on which samples there are, not on their order |
| UsageSpec.TotalOfLive | reference/Koryphaios/backend/src/billing/cli-usage.ts:107 | only reported samples of the last 30 days weigh in any window |
| UsageSpec.Periods | reference/Koryphaios/backend/src/billing/cli-usage.ts:46-52 | the periods in milliseconds, and when a line expires |
| UsageSpec.OneSampleWeighs | reference/Koryphaios/backend/src/billing/cli-usage.ts:100-123 | a sample adds its own number to a total exactly if it reports usage, is within the window and of the model |
| UsageSpec.TotalAppend | reference/Koryphaios/backend/src/billing/cli-usage.ts:106-115 | totals are sums over the samples |
| UsageSpec.FreshOfOne | reference/Koryphaios/backend/src/billing/cli-usage.ts:199 | a parse keeps a line exactly if it is at most 31 days old |
| UsageSpec.FreshAppend | reference/Koryphaios/backend/src/billing/cli-usage.ts:170-178 | in order |
| UsageSpec.WindowsGrow | reference/Koryphaios/backend/src/billing/cli-usage.ts:100-123 | a wider window never shows less |
| UsageSpec.FreshOfFresh | reference/Koryphaios/backend/src/billing/cli-usage.ts:156-178 | an earlier parse still holds everything a later one would keep |
| UsageSpec.CachedCountsSameIff | reference/Koryphaios/backend/src/billing/cli-usage.ts:156-240 | the live samples that count are the same from an old parse as from a fresh one if and only if no live sample is followed by expired versions of its id alone; otherwise the old parse counts fewer |
| UsageSpec.RisingIsSafe | reference/Koryphaios/backend/src/billing/cli-usage.ts:227-240 | time stamps that never decrease along an id rule that out |
| UsageSpec.CacheIsSoundOverTime | reference/Koryphaios/backend/src/billing/cli-usage.ts:152-240 | every total over every window and model is then the same from the cache as from a fresh parse |
| UsageSpec.StaleAfterRecent | reference/Koryphaios/backend/src/billing/cli-usage.ts:227-240 | an expired line after a recent one of its id makes the cached month zero where a fresh parse shows the recent tokens |
| UsageReader.ThinnedRises | reference/Koryphaios/backend/src/billing/cli-usage.ts:199 | dropping lines keeps time stamps rising along each id |
| UsageReader.KeptSnoc | reference/Koryphaios/backend/src/billing/cli-usage.ts:227-236 | one more sample replaces the earlier one of its id |
| UsageReader.PutReplaces | reference/Koryphaios/backend/src/billing/cli-usage.ts:235 | setting a key of the insertion-ordered map replaces the sample of that id, if any, and keeps all others |
| UsageReader.Gather | reference/Koryphaios/backend/src/billing/cli-usage.ts:226-240 | the loop gathers, as a bag, every sample without an id and the last one of each id |
| UsageReport.SumWindow | reference/Koryphaios/backend/src/billing/cli-usage.ts:102-115 | one window's three sums are the totals over the samples it covers |
| UsageReport.WindowsFromSamples | reference/Koryphaios/backend/src/billing/cli-usage.ts:100-123 | hour, day, week and month, each with its totals |
| UsageReport.WindowsAre | reference/Koryphaios/backend/src/billing/cli-usage.ts:46-51 | the four windows, by name and length |
| UsageReport.LongerWindowsShowMore | reference/Koryphaios/backend/src/billing/cli-usage.ts:46-51 | hour ≤ day ≤ week ≤ month in every field |
| UsageReport.ByModelFromSamples | reference/Koryphaios/backend/src/billing/cli-usage.ts:125-142 | one row for each model in use over the last month and no other, with that model's totals |
| UsageReport.RowsAddUpToTheMonth | reference/Koryphaios/backend/src/billing/cli-usage.ts:100-142 | the rows add up to the month's totals |
| UsageCache.ParseLines | reference/Koryphaios/backend/src/billing/cli-usage.ts:171-175 | parsing keeps exactly the lines within the 31-day horizon, in order |
| UsageCache.AllLinesOfOne | reference/Koryphaios/backend/src/billing/cli-usage.ts:231-240 | what a fresh parse would see of a file |
| UsageCache.AllLinesAppend | reference/Koryphaios/backend/src/billing/cli-usage.ts:231-240 | file by file, in the order of the walk |
| UsageCache.FileCache.SamplesFromFile | reference/Koryphaios/backend/src/billing/cli-usage.ts:156-178 | a hit gives the cached samples, a miss parses and caches, a missing or unreadable file gives none; a readable file's samples are as good as a parse now |
| UsageCache.SkippedFileHoldsNothing | reference/Koryphaios/backend/src/billing/cli-usage.ts:90-91 | if no line is newer than its file, a file the walk leaves out holds no line within the horizon |
| UsageCache.FileCache.Scan | reference/Koryphaios/backend/src/billing/cli-usage.ts:230-239 | if every file can be read and no line is newer than its file, the samples of all files, mixed from old and new parses, are as good as parsing every file now |
| UsageCache.FileCache.ReadClaude | reference/Koryphaios/backend/src/billing/cli-usage.ts:218-249 | windows and rows are the totals of the scanned samples that count; if every file can be read, no line is newer than its file and time stamps rise along ids, they are those of a fresh parse of every file, whatever was cached before |
| UsageCache.KeptOfFresh | reference/Koryphaios/backend/src/billing/cli-usage.ts:199-240 | with rising time stamps it does not matter whether expired lines are dropped before or after choosing the last of each id |
| UsageCache.AvailabilityOutlivesIff | reference/Koryphaios/backend/src/billing/cli-usage.ts:67-71 | the cache says "available" where a fresh parse would not exactly when every counting sample that used tokens has expired |
| SnapshotSpec.CreatedHolds | reference/Koryphaios/backend/src/kory/snapshot-manager.ts:19-52 | a snapshot holds each listed file as it was, the manifest, and what its directory held before; nothing else on disk changes |
| SnapshotSpec.SnapshotNames | reference/Koryphaios/backend/src/kory/snapshot-manager.ts:25-45 | where a snapshot lives and what its manifest is called |
| SnapshotSpec.CopyGoes | reference/Koryphaios/backend/src/kory/snapshot-manager.ts:33-36 | a listed file inside the working directory is copied to the same place below the snapshot, one outside that many directories higher |
| SnapshotSpec.CopyingGoesOn | reference/Koryphaios/backend/src/kory/snapshot-manager.ts:25-41 | a listed path that is no file is passed over, a file is written to its copy's place, and a directory that is there is used as it is |
| SnapshotSpec.DiskWrites | reference/Koryphaios/backend/src/kory/snapshot-manager.ts:38-39 | a write fails exactly on a directory or below a file, and otherwise changes that file and makes the directories above it, nothing else |
| SnapshotSpec.RestoreUndoesWrites | reference/Koryphaios/backend/src/kory/snapshot-manager.ts:19-97 | of a restored disk: every listed file is as at the snapshot, files of an older snapshot of the same id as then, all others unchanged; paths through `manifest.json` are skipped |
| SnapshotSpec.FreshSnapshotHoldsIff | reference/Koryphaios/backend/src/kory/snapshot-manager.ts:30-40 | a new snapshot backs up exactly the listed paths that are files and have no component named like the manifest; directories add nothing |
| SnapshotManager.SnapshotIsStable | reference/Koryphaios/backend/src/kory/snapshot-manager.ts:72-89 | the snapshot does not change while it is restored |
| SnapshotManager.WriteFailsIff | reference/Koryphaios/backend/src/kory/snapshot-manager.ts:85-87 | writing a file back fails exactly when its target was a directory, or below a file, from the start |
| SnapshotManager.MakeFailsIff | reference/Koryphaios/backend/src/kory/snapshot-manager.ts:82-83 | making a directory fails exactly when its target did not exist and lay below a file from the start |
| SnapshotManager.SnapshotManager.CreateSnapshot | reference/Koryphaios/backend/src/kory/snapshot-manager.ts:19-52 | succeeds exactly when every copy can be made, and then the disk is the one specified |
| SnapshotManager.SnapshotManager.CopyBack | reference/Koryphaios/backend/src/kory/snapshot-manager.ts:72-89 | the recursive walk ends, restores everything below its directory or met a clash, and never deletes |
| SnapshotManager.SnapshotManager.RestoreSnapshot | reference/Koryphaios/backend/src/kory/snapshot-manager.ts:57-97 | fails without a snapshot; otherwise, unless the snapshot would be restored into itself (which `CreatedIsApart` excludes), succeeds exactly when nothing clashes, and then the disk is restored; if it breaks off each file is as it was or as it was backed up; the snapshot stays |
| SnapshotManager.CreatedIsApart | reference/Koryphaios/backend/src/kory/snapshot-manager.ts:19-52 | taking a snapshot, new or under a name used before, leaves one that is not restored into itself |
| SnapshotManager.NewNameIsNotNested | reference/Koryphaios/backend/src/kory/snapshot-manager.ts:25-28 | a snapshot directory with nothing in it meets that condition from the start |
| SnapshotManager.ApartOverRuns | reference/Koryphaios/backend/src/kory/snapshot-manager.ts:19-97 | so does one after any run of snapshots under its name, restores and other changes of the disk |
| SnapshotManager.SnapshotThenRestore | reference/Koryphaios/backend/src/kory/snapshot-manager.ts:19-97 | snapshot, any later writes elsewhere, restore: it succeeds exactly when no target clashes, and then every listed file is as at the snapshot and no other file changes, but for files of an older snapshot of the same id and paths through `manifest.json` |
| StreamSpec.SentSnoc | reference/Koryphaios/backend/src/core/streaming-response.ts:193-222 | one more step sends the last thought held back, unless it is a thought itself, and then its own event |
| StreamSpec.NoActionIsLost | reference/Koryphaios/backend/src/core/streaming-response.ts:193-204 | everything that is not a thought is sent, once and in order |
| StreamSpec.SentInOrder | reference/Koryphaios/backend/src/core/streaming-response.ts:193-222 | what is sent is a subsequence of what was emitted |
| StreamSpec.OneThoughtPerWindow | reference/Koryphaios/backend/src/core/streaming-response.ts:209-222 | of the thoughts between two other steps, wherever they come, only the last is sent, before the step's own event |
| StreamSpec.LateThoughtsWait | reference/Koryphaios/backend/src/core/streaming-response.ts:193-249 | thoughts emitted after a close are held back until some other event is emitted: then the last of them is sent, and if there is none, none is |
| StreamController.StreamController.FlushBuffer | reference/Koryphaios/backend/src/core/streaming-response.ts:209-222 | publishes exactly the latest thought held back, if any, and holds nothing back |
| StreamController.StreamController.EmitEvent | reference/Koryphaios/backend/src/core/streaming-response.ts:193-204 | holds a thought back; publishes any other event after the latest thought held back |
| StreamController.StreamController.TimerFires | reference/Koryphaios/backend/src/core/streaming-response.ts:87 | the timer flushes, while it runs |
| StreamController.StreamController.CloseStream | reference/Koryphaios/backend/src/core/streaming-response.ts:242-249 | after a close the timer is gone and nothing is held back |
| StreamController.StreamController.CompleteStream | reference/Koryphaios/backend/src/core/streaming-response.ts:163-172 | the completion event is the last published, after everything held back, and the stream is closed |
| StreamController.StreamController.EmitError | reference/Koryphaios/backend/src/core/streaming-response.ts:177-188 | an error is published after everything held back; only an unrecoverable one closes the stream |
| PubSub.SubscriberSeesItsLifetime | reference/Koryphaios/backend/src/pubsub.ts:27-115 | a subscriber's log is exactly what is published between its subscription and its end, and never changes later |
| PubSub.ShutdownIsForGood | reference/Koryphaios/backend/src/pubsub.ts:27-91 | a shutdown closes every stream with what it was given, and nobody can subscribe after it |
| PubSub.GiveAll | reference/Koryphaios/backend/src/pubsub.ts:62-72 | the publish loop gives the item to every open stream and to no closed one |
| PubSub.Broker.Subscribe | reference/Koryphaios/backend/src/pubsub.ts:27-56 | opens a new empty stream with the next number, or fails after a shutdown without using one |
| PubSub.Broker.Publish | reference/Koryphaios/backend/src/pubsub.ts:59-73 | makes the broker's publish transition |
| PubSub.Broker.Unsubscribe | reference/Koryphaios/backend/src/pubsub.ts:98-115 | closes that stream and no other; unknown or ended numbers change nothing |
| PubSub.Broker.Shutdown | reference/Koryphaios/backend/src/pubsub.ts:81-91 | closes every stream, and nothing more when repeated |
| StreamDelivery.PublishedIsSent | reference/Koryphaios/backend/src/core/streaming-response.ts:193-237 | what the broker is given for a stream is what its history sends |
| StreamDelivery.SubscriberFollowsTheStream | reference/Koryphaios/backend/src/core/streaming-response.ts:193-249 | for any interleaving of emits, flushes, other publishers, joins and leaves, a subscriber's log continues what was sent before it joined to what the history up to its end sends |
| GitMutex.StepIs | reference/Koryphaios/backend/src/kory/git-mutex.ts:3-10 | who can arrive, get in and release, and what each changes |
| GitMutex.StepKeepsQueue | reference/Koryphaios/backend/src/kory/git-mutex.ts:3-10 | every step keeps those let in a prefix of those arrived, all but perhaps the last released |
| GitMutex.ReachableIsQueue | reference/Koryphaios/backend/src/kory/git-mutex.ts:3-10 | so it is in every reachable state |
| GitMutex.MutualExclusion | reference/Koryphaios/backend/src/kory/git-mutex.ts:3-10 | at most one caller is between being let in and its first release |
| GitMutex.FirstComeFirstServed | reference/Koryphaios/backend/src/kory/git-mutex.ts:5-8 | callers are let in exactly in the order they arrived |
| GitMutex.ReleaseAgainChangesNothing | reference/Koryphaios/backend/src/kory/git-mutex.ts:5-9 | a repeated release, however much later, changes nothing |
| GitMutex.NeverStuck | reference/Koryphaios/backend/src/kory/git-mutex.ts:3-10 | while someone waits, someone can be let in or has yet to release |
| GitMutex.EveryoneGetsIn | reference/Koryphaios/backend/src/kory/git-mutex.ts:3-10 | the caller number n is in after at most 2n+1 grants and first releases, however many others arrive |
| GitMutex.AsyncMutex.Acquire | reference/Koryphaios/backend/src/kory/git-mutex.ts:3-7 | a caller waits for exactly the one before it and leaves its own promise for the next |
| GitMutex.AsyncMutex.Resume | reference/Koryphaios/backend/src/kory/git-mutex.ts:8 | goes on exactly when the step machine allows it |
| GitMutex.AsyncMutex.Resolve | reference/Koryphaios/backend/src/kory/git-mutex.ts:5 | makes the release transition |
| PayloadId.XorInjective | reference/Koryphaios/desktop/src-tauri/build.rs:50 | exclusive or with a byte is injective in either argument |
| PayloadId.XorBits | reference/Koryphaios/desktop/src-tauri/build.rs:50 | a bit of an exclusive or is set exactly if it is set in one of the two and not in the other |
| PayloadId.KnownIds | reference/Koryphaios/desktop/src-tauri/build.rs:49-51 | the ids of no bytes and of the letter `a` are the published FNV-1a values |
| PayloadId.MulUndone | reference/Koryphaios/desktop/src-tauri/build.rs:50 | wrapping multiplication by the prime of draft-eastlake-fnv, section 2, can be undone |
| PayloadId.MixInjective | reference/Koryphaios/desktop/src-tauri/build.rs:50 | one round is injective in the hash and in the byte |
| PayloadId.FoldInjective | reference/Koryphaios/desktop/src-tauri/build.rs:49-51 | what follows never makes two different states meet |
| PayloadId.OneByteChangesTheId | reference/Koryphaios/desktop/src-tauri/build.rs:49-51 | changing one byte of a payload changes its id, always |
| PayloadId.DifferentFrontsStayDifferent | reference/Koryphaios/desktop/src-tauri/build.rs:49-51 | payloads with a common end have the same id exactly when their fronts do |
| MigrationChecksum.Hash | reference/Koryphaios/backend/src/db/migrations.ts:689-695 | the loop's hash is within 32 bits and is the residue of the sum of the code units times powers of 31 |
| MigrationChecksum.CalculateChecksum | reference/Koryphaios/backend/src/db/migrations.ts:687-697 | the checksum is that residue without its sign |
| MigrationChecksum.OneUnitChangesTheHash | reference/Koryphaios/backend/src/db/migrations.ts:691-695 | changing one code unit always changes the hash before the sign is dropped |
| MigrationChecksum.ChecksumMissesIff | reference/Koryphaios/backend/src/db/migrations.ts:691-696 | the checksum misses a change of one code unit exactly when twice the sum plus the change is a multiple of 2^32 |
| MigrationChecksum.ChecksumCanMiss | reference/Koryphaios/backend/src/db/migrations.ts:696 | two texts of eight letters that differ in the first have the same checksum |

## Left out

- HybridTransport.OneCopy: `provider-catalog`, which ignores exclusions, and `approval-result`, which is also sent to its target, are not covered.
- HybridTransport.ExactlyOnce: channels are reliable sequences, and a `send` either throws or delivers; the set reached by a broadcast is a parameter, and signalling is in `PeerPrompts`.
- PeerPrompts.GetsPastInRunIff: a guest has one channel, replaced at its next offer and gone when its peer is closed; a message still in flight on a channel that is being closed is not modelled. ICE candidates and the answer are left out. A prompt has a text: where it is missing the relay forwards the word `undefined` and the channel nothing.
- RelayLateJoin.LateJoinView: one join decision per guest, as a second one sends the history again; tier and policy stay fixed afterwards.
- RelayPolicy.NormalizedLookups: trimming and de-duplicating a tier's lists is a parameter, and the session name, workspace paths and model catalog are not modelled.
- ProjectSync.DeltaSyncConverges: paths are a flat map; a path that becomes a directory of another is not modelled, nor is removal of sandboxes.
- ProjectRuns.MixedRunConvergesIff: one guest and provider; edits of a turn that is still running when a new catalog comes reach the sandbox and, as in the code, no new record.
- ProjectScan.SmallProjectIsComplete: for a total strictly under the budget; ignore lists and the `.gitignore` reader are predicates.
- StreamSpec.LateThoughtsWait: a second close flushes like the first and ends the wait; the lemma speaks of what happens before it.
- Inference.PipeIsOrderedAndComplete: for runs without `disconnect()`, which clears the streams before the close handler can fail them, and without reconnects. Events are taken as truthy.
- ProviderHost.Host.HandleInferenceRequest: the tightened sandbox policy and the provider's retries are not modelled; the project sync is modelled in `ProjectSync`.
- LspClient.Client.HandleData: works on characters; decoding a chunk that splits a multi-byte character, and header fields after `Content-Length`, are not modelled. A response that arrives before its request is registered is ignored, as in the code.
- TurnLoop.Manager.HandleDirectly: usage counters, streaming to the user interface, persistence and routing are not modelled.
- AgentThread.AgentThread.SendMessage: one run at a time; a message sent to a cancelled thread while its old run is still unwinding is not modelled.
- ToolCalls.ProcessStream: a call's input is its raw text, before JSON parsing.
- Pruning.PruningLosesNothing: the stub's text and the text made of an output are parameters, so the 30,000 character cap of the live context is not modelled.
- ContextArchive.Archive.EnsureLoaded: calls are serialised; two calls during the first load are not modelled, as `loaded` is set before the file is read. The class reads its log without failure; runs with failed loads are in `ArchiveReloads`. An append that leaves part of a line, which spoils the next row as well, is not modelled. Entries with ids not made by the archive are replayed only as far as their digits are decimal.
- ContextArchive.WrittenEntriesAreForever: for runs in which every load succeeds; what is found in others says `ArchiveReloads.ReopeningFindsLastWritten`.
- ContextArchive.Archive.SetPrunedForAgent: an entry shared between list and index is modelled by its position.
- UsageReport.WindowsFromSamples: the equivalent cost of a window is left out, as it is a sum of looked-up prices.
- UsageReport.ByModelFromSamples: rows come in order of first use; the final sort by total and the cost are left out.
- UsageCache.FileCache.ReadClaude: parsing a JSON line is taken as given, files with an unchanged stamp are taken to be unchanged, and the one-minute cache of whole reports and the other command line tools are left out.
- SnapshotManager.SnapshotManager.RestoreSnapshot: says nothing of a snapshot that holds a copy of files of its own directory.
- SnapshotManager.SnapshotThenRestore: for listed paths inside the working directory and not inside the snapshot's own directory; session and snapshot ids are single path components.
- SnapshotManager.SnapshotManager.CreateSnapshot: the disk after a failed copy is not described. `restoreFiles` and `prune` are not modelled.
- StreamController.StreamController.CloseStream: the registry of active streams that is told of the close is not modelled.
- PubSub.Broker.Subscribe: an abort signal is an unsubscribe; reading from the stream is not modelled, as its queue has no bound.
- GitMutex.AsyncMutex.Resume: the microtask between a release and the next caller is a step of its own.
- PayloadId.OneByteChangesTheId: about the number, not its hexadecimal form; the same holds for the migration checksum.
- Tokens, signatures and envelopes (HMAC, AES-GCM, scrypt), WebSocket, WebRTC and HTTP plumbing, git, SQLite and migrations' SQL, providers and pricing tables, the desktop shell and the user interface.
