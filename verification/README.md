# rttys: what its protocols keep

rttys gives a browser a terminal on a remote machine. An *agent* runs shells, a *browser* shows
them, and a *relay* between the two routes messages it cannot read: each session has its own keys,
agreed end to end. This project models the parts of that system whose correctness is not visible
from reading one function, and proves what they keep over whole runs.

| files | what they model |
|---|---|
| `RelayModel.dfy`, `RelayProofs.dfy`, `RelayService.dfy`, `RelayObserved.dfy` | the relay: three indexes of the same sessions, their limits, the audit rows, and who is written to. `RelayModel` states the effect of every event in closed form; `RelayService` is the program's own form, a class whose handlers loop over the maps and delete as they go, proved to have exactly these effects; `RelayProofs` is what all runs keep; `RelayObserved` tells the same events again as one session, one browser, one agent and the audit log see them, from the fields of the events alone, and proves both accounts equal |
| `Channel.dfy`, `TerminalChannel.dfy`, `AgentSession.dfy` | the encrypted channel: two goroutines sharing one counter on the agent, promise queues in the browser, and a network that drops, duplicates, reorders, injects, and changes the message types that travel in the clear |
| `Remount.dfy` | a terminal that is torn down and set up again with the same keys |
| `KeyBinding.dfy` | which key pair is bound to which session, with the relay of the program between several browsers and agents, and with a relay that says anything, the agent's identity key included |
| `Crypto.dfy`, `Encodings.dfy` | nonces, counters and the texts that are signed, MACed or hashed, byte by byte, as both languages build them |
| `Transfer.dfy`, `SessionObserved.dfy` | file transfers inside the channel, when the agent's counter stays in step, and what a session answers |
| `Scrollback.dfy` | the circular scrollback buffer |
| `Osc94.dfy` | the scanner for progress sequences |
| `RateLimit.dfy`, `RateObserved.dfy` | the fixed-window rate limiter with its sweep, and when it admits, by the times of one key's own checks |
| `AuditLog.dfy`, `Search.dfy`, `AuditObserved.dfy` | cursor paging over the growing audit table, its filters and its LIKE escaping, and what one answer holds |
| `Yaml.dfy`, `YamlObserved.dfy` | the flat YAML printer and parser, and the grammar of one line |
| `Prelude.dfy` | options, bytes and order-preserving selection |

Cryptography is ideal: a ciphertext opens only under the key and nonce that sealed it, a derived key
is fixed by the two public keys, the salt and the slot, and a signature by its signer and its text.
Clock readings, random identifiers, the ownership query, JSON, SHA-256 and the file system are
parameters. Socket writes are sequences of messages with an open flag.

Where the program does less than one might expect, the model follows the program and the exact
condition is proved:

- Nonces repeat after 2^64 messages on the agent and after 2^53 + 1 in the browser, where the
  counter stops at 2^53 (`Crypto.NoncesDistinctExactly`).
- A file chunk without a pending transfer is dropped before it is decrypted. The agent's counter then
  falls behind for good: nothing that follows in order opens or is typed
  (`Transfer.FirstRefusalIsFinal`). An empty image is enough, and so is one over 10 MB where the
  browser's setting lets it through (`TerminalChannel.RefusedExactly`,
  `TerminalChannel.EmptyImageIsFinal`).
- A message's type is not part of what is sealed. The accepted plaintexts are a prefix of the sealed
  ones over any network, but they are accepted as the types their sender gave them exactly when each
  first delivery of a next payload has its type (`Channel.AcceptedAsSentExactly`,
  `Channel.ChangedTypeIsAccepted`).
- The browser takes the agent's identity key from the relay. Established keys are then keys the agent
  agreed to in all runs exactly when the relay names no other key than the agent's
  (`KeyBinding.AgreedExactly`, `KeyBinding.OtherKeyIsBelieved`), although the repository's README
  promises detection of a man in the middle by trust on first use. That check only reports, and only
  what `agent.online` announces (`KeyBinding.NoWarningMeansAgreed`).
- A terminal that runs the key exchange again starts over at counter 0 with the same keys. No nonce
  is used twice exactly when nothing is sealed any more after such an exchange
  (`Remount.NonceRepeatsExactly`, `Remount.RemountRepeats`), and old messages that the network repeats
  are shown again (`Channel.OnePrefixExactly`).
- The 500-session limit never decides anything (`RelayProofs.GlobalLimitIsRedundant`).
- A cursor query with both `before` and `after` returns the oldest end of what lies before
  `before` (`AuditLog.PageExactly`).
- The search input is literal text exactly when it holds no backslash, although the source comments
  that user input is treated as literal text (`Search.LiteralSearchExactly`).
- Printing and parsing YAML undo each other exactly for the keys and values that
  `Yaml.RoundTripExactly` describes.

## Model

| member | source | states |
|---|---|---|
| RelayProofs.StepKeepsInvariant | packages/relay/src/router.ts:44-406 | every event keeps the three session indexes describing the same sessions, the per-agent and per-browser limits, and each session created and closed at most once; the sessions neither live nor closed grow only by those of an agent that disconnects |
| RelayProofs.RunKeepsInvariant | packages/relay/src/router.ts:39-406 | all of that holds in every state of every run from the empty relay |
| RelayProofs.ReplacedKeeps | packages/relay/src/agentHub.ts:112-132 | a second connection of an agent starts with no sessions of its own, and everything else stays coherent |
| RelayProofs.TotalSessionsBound | packages/relay/src/router.ts:241-262 | there are never more sessions than five times the connected browsers |
| RelayProofs.GlobalLimitIsRedundant | packages/relay/src/router.ts:241-262 | whenever the 500-session check would reject, the per-browser check rejects too; the limits reject exactly on the other two counts |
| RelayProofs.RunLoses | packages/relay/src/router.ts:390-406 | the sessions that vanish without an audit row are exactly those of agents at the moment they disconnected |
| RelayProofs.SessionsAreConserved | packages/relay/src/router.ts:44-406 | session_create rows = live sessions + session_close rows + sessions dropped by agent disconnects, in every run |
| RelayProofs.BrowserCleanupIsExact | packages/relay/src/router.ts:380-388 | a browser's disconnect ends exactly the sessions it was mapped to and leaves the other mappings as they were |
| RelayProofs.CleanupsAreExact | packages/relay/src/router.ts:57-66 | the sweep ends exactly the sessions idle for more than 24 hours, a browser's close its own, an agent's close its own unless it was replaced |
| RelayObserved.CreateExactly | packages/relay/src/router.ts:200-298 | a pty.create under a fresh id makes the session exactly when the agent and the browser are connected, the user owns the agent, the shell has no forbidden character, the directory no NUL, and the counts are below 500, 20 and 5; otherwise no session, agent or row changes and that browser alone is told what the request met first |
| RelayObserved.LiveExactly | packages/relay/src/router.ts:39-406 | in every run a session is live exactly while no later event has ended it: its agent's pty.exited or creation failure, its browser's or its agent's disconnect, or a sweep more than 24 hours after its latest use; while it lives its mapping names who made it |
| RelayObserved.LastActivityIsLatestUse | packages/relay/src/router.ts:114-371 | lastActivity of a live session is the time of the latest of its creation, its agent's pty.data and its browser's pty.data and file.transfer messages |
| RelayObserved.SweepEndsIdleExactly | packages/relay/src/router.ts:57-66 | with times that do not go back, a sweep ends a session exactly when neither its creation nor any of those messages fell in the last 24 hours |
| RelayObserved.ClosesExactly | packages/relay/src/router.ts:44-66 | each session an event closes gets one close row with the event's reason, in the order the sessions were made; a sweep and a browser's disconnect tell each open agent to close its own of them; nothing else closes anything |
| RelayObserved.ConnectionsExactly | packages/relay/src/agentHub.ts:112-178 | a browser is connected from its connection, if fewer than 100 are, to its close, and an agent from its hello, which replaces an earlier connection, to the close of that same socket |
| RelayObserved.AgentSetFollows | packages/relay/src/router.ts:44-55 | the session set kept with an agent's connection gains exactly the sessions created on it and loses exactly those that end |
| RelayProofs.ScanIsLookup | packages/relay/src/browserHub.ts:113-120 | scanning all subscription sets finds exactly the open browser of the session's mapping |
| RelayProofs.OnlyTheOwnerHears | packages/relay/src/router.ts:91-194 | an agent's message about a session is written once to that session's browser when the session is the agent's own, to nobody otherwise, and no other socket changes |
| RelayObserved.BrowserHears | packages/relay/src/router.ts:68-196 | what each browser is written, field by field: its user's agents coming and going, and the reports of its own sessions' agents |
| RelayProofs.MayUseIsSubscribed | packages/relay/src/router.ts:300-313 | the mapping check on browser messages means: connected, subscribed, and the right agent |
| RelayProofs.OnlyTheOwnerCommands | packages/relay/src/router.ts:300-376 | a browser's message reaches exactly the open agent that runs the session, and only from the session's browser |
| RelayObserved.AgentIsTold | packages/relay/src/router.ts:300-376 | what each agent is written of a browser's message, field by field, columns and rows each kept between 1 and 500 |
| RelayService.Relay.Handle | packages/relay/src/router.ts:39-406 | whatever event comes, its handler takes the step of the model and keeps the invariant |
| RelayService.Relay.SendToBrowser | packages/relay/src/browserHub.ts:85-90 | one message to one open browser |
| RelayService.Relay.SendTo | packages/relay/src/agentHub.ts:195-200 | one message to one open agent |
| RelayService.Relay.SendToSessionSubscribers | packages/relay/src/browserHub.ts:113-120 | the loop delivers once to each open subscriber and to nobody else |
| RelayService.Relay.BroadcastToUserBrowsers | packages/relay/src/browserHub.ts:96-103 | the loop delivers once to each open browser of the user |
| RelayService.Relay.UnsubscribeAllFromSession | packages/relay/src/browserHub.ts:122-126 | the loop removes the session from every subscription set and changes nothing else |
| RelayService.Relay.DestroySession | packages/relay/src/router.ts:44-55 | the session leaves all three indexes, one close row is written, and the agent is told only when asked |
| RelayService.Relay.SweepStaleSessions | packages/relay/src/router.ts:57-66 | deleting while iterating removes all stale sessions at once, in map order |
| RelayService.Relay.HandleBrowserDisconnect | packages/relay/src/router.ts:380-388 | striking the browser and destroying as it goes equals removing all orphans at once |
| RelayService.Relay.HandleAgentDisconnect | packages/relay/src/router.ts:390-406 | the owner's browsers are told, then the agent's sessions are forgotten without audit rows |
| RelayService.Relay.HandleBrowserConnection | packages/relay/src/browserHub.ts:29-44 | a browser is added unless 100 are connected |
| RelayService.Relay.HandleAgentHello | packages/relay/src/agentHub.ts:112-139 | a new connection takes the agent's place and the owner's browsers hear of it |
| RelayService.Relay.HandleAgentClose | packages/relay/src/agentHub.ts:163-178 | only the current connection's close cleans up |
| RelayService.Relay.HandleAgentMessage | packages/relay/src/router.ts:68-196 | each kind of agent message has its stated effect, and none if the session is not the agent's: what is written is BrowserHears, what becomes of sessions is LiveExactly |
| RelayService.Relay.SendAlongMapping | packages/relay/src/router.ts:91-109 | the loop over browserIds delivers once to each |
| RelayService.Relay.CountSessions | packages/relay/src/router.ts:247-254 | one pass counts exactly the agent's and the browser's sessions |
| RelayService.Relay.HandleCreate | packages/relay/src/router.ts:200-298 | the first failing check decides the error, otherwise the session enters every index: the effect that RelayObserved.CreateExactly spells out |
| RelayService.Relay.Enter | packages/relay/src/router.ts:264-297 | mapping, subscription, agent set, pty.create and audit row of a new session |
| RelayService.Relay.HandleBrowserMessage | packages/relay/src/router.ts:198-378 | each kind of browser message has its stated effect, and none without the right to use the session: what is written is AgentIsTold, what becomes of sessions is LiveExactly |
| Channel.OpensExactly | agent/crypto.go:115-133 | what was sealed at counter i opens at counter j exactly when i = j |
| Channel.AcceptedIsPrefix | packages/web/src/components/TerminalView.tsx:114-150 | in every run and interleaving, over any network, changed types included, and however often the terminal is torn down and set up again: the plaintexts each terminal accepts are those of a prefix of what was sealed in counter order, and nothing after a message that never arrived |
| Channel.AcceptedAsSentExactly | packages/web/src/components/TerminalView.tsx:426-453 | what a terminal accepts is a prefix of what was sent, types included, exactly when, of what the network delivered to it, each first message with the next payload had the type it was sent with; then the pty.data part of what it is fed is a prefix of what the PTY printed, and every replay it is fed is the scrollback of some moment |
| Channel.FedIsPrefixExactly | packages/web/src/components/TerminalView.tsx:114-150 | the same condition for any log and any deliveries to a receiver that starts at counter 0 |
| Channel.OnePrefixExactly | packages/web/src/components/TerminalView.tsx:198-202 | the terminals of a session, each starting over at the first message, together show one prefix with no message twice exactly when at most one of them accepted anything |
| Channel.HonestTypesAreKept | packages/relay/src/router.ts:111-148 | over a network that passes types on as they are, every terminal accepts messages as they were sent |
| Channel.ChangedTypeIsAccepted | agent/crypto.go:115-133 | a reachable run in which a file note delivered as pty.data is accepted as terminal output, although the PTY printed nothing |
| Channel.NoNonceTwice | agent/session.go:94-99 | over data, replays and file notes, sent or given up, the agent has sealed no two messages under one nonce exactly while it has sealed at most 2^64 |
| Channel.NoNonceTwiceUp | packages/web/src/components/TerminalView.tsx:105-111 | the browser has sealed no two messages under one nonce exactly while it has sealed at most 2^53 + 1 |
| Channel.TakenIsPrefix | agent/session.go:324-351 | over any network, the plaintexts the agent takes are those of a prefix of what the browser sealed, and nothing after a message that never reached a decrypting handler |
| Channel.TakenAsSentExactly | agent/session.go:324-351 | they are a prefix types included exactly when, of what reached a decrypting handler, each first message with the next payload had the type it was sent with |
| Remount.NonceRepeatsExactly | packages/web/src/components/TerminalView.tsx:174-204 | over any sequence of tear-downs, key exchanges and sends under the same keys, no nonce is used twice exactly when nothing is sealed after an exchange that found something sealed, and at most 2^53 + 1 messages are |
| Remount.RemountRepeats | packages/web/src/components/TerminalView.tsx:105-111 | a reachable run in which two different messages are sealed under one nonce: one send, a tear-down, the exchange again, another send |
| Channel.InOrderAllTaken | agent/file_transfer.go:59-71 | what arrives in counter order without loss is taken in full by the agent |
| Channel.InOrderAllShown | packages/web/src/components/TerminalView.tsx:114-150 | and shown in full by the browser while its counter is below 2^53 |
| Channel.QueuedAllSent | packages/web/src/components/TerminalView.tsx:124-135 | whatever waits in the browser's sending queue goes out in that order, sealed under successive counters |
| Channel.QueuedAllShown | packages/web/src/components/TerminalView.tsx:140-150 | messages that wait in the receiving queue in the order of their counters are all shown, in that order |
| TerminalChannel.TerminalView.EstablishKeys | packages/web/src/components/TerminalView.tsx:198-202 | a key exchange replaces the keys and starts both counters at 0; an encryption under way goes on under the old ones |
| TerminalChannel.TerminalView.Unmount | packages/web/src/components/TerminalView.tsx:524-528 | the cleanup leaves no keys and no queues; an encryption under way goes on under the key and counter it started with |
| TerminalChannel.TerminalView.FinishLeftOver | packages/web/src/components/TerminalView.tsx:124-135 | its message is still sent, and the counters of the next terminal do not move |
| TerminalChannel.TerminalView.QueueEncryptedSend | packages/web/src/components/TerminalView.tsx:124-135 | sends are serialized in the order they were queued |
| TerminalChannel.TerminalView.BeginEncrypt | packages/web/src/components/TerminalView.tsx:105-111 | the next queued send starts with the current counter, and is dropped while there are no keys |
| TerminalChannel.TerminalView.FinishEncrypt | packages/web/src/components/TerminalView.tsx:105-111 | the message goes out sealed under the counter it started with, which then advances |
| TerminalChannel.TerminalView.BeginReceive | packages/web/src/components/TerminalView.tsx:140-150 | the next queued payload starts decrypting with the current counter, and is rejected while there are no keys |
| TerminalChannel.TerminalView.FinishReceive | packages/web/src/components/TerminalView.tsx:113-120 | the counter advances and the plaintext is shown only if decryption succeeded |
| TerminalChannel.TerminalView.StartImageTransfer | packages/web/src/components/TerminalView.tsx:322-362 | with keys, an allowed type and an allowed size the metadata, every 32 KB slice of the buffer in order, and the end message are queued; otherwise nothing is |
| TerminalChannel.UploadIsWhole | packages/web/src/components/TerminalView.tsx:322-362 | an upload is its start, pieces of at most 32 KB that together are the file, and its end |
| TerminalChannel.MayUploadExactly | packages/web/src/components/TerminalView.tsx:322-336 | a PNG or JPEG, or a type of the setting, of at most 10 MB or the setting's size |
| TerminalChannel.RefusedExactly | agent/file_transfer.go:107-118 | with nothing pending the agent refuses an upload exactly when the file is empty or over 10 MB |
| TerminalChannel.RefusedImageIsFinal | agent/file_transfer.go:107-183 | after such a refused start the agent opens nothing of all that follows in order |
| TerminalChannel.EmptyImagePasses | packages/web/src/components/TerminalView.tsx:322-362 | the browser lets an empty image through and makes two messages of it |
| TerminalChannel.EmptyImageIsFinal | agent/file_transfer.go:111-183 | the agent opens the first of them and none of what is typed afterwards |
| AgentSession.Session.ReadPty | agent/session.go:269-313 | over all reads, the scrollback gets every byte and each non-empty read is sealed under the next counter |
| AgentSession.Session.ForwardOutput | agent/session.go:277-284 | one read: scrollback, then counter, then message |
| AgentSession.Session.SendCounterNext | agent/session.go:94-99 | returns the counter and advances it modulo 2^64 |
| AgentSession.Session.Open | agent/file_transfer.go:59-71 | RecvCounter advances exactly when decryption succeeds |
| AgentSession.Session.HandlePtyData | agent/session.go:324-351 | what opens is typed; oversized, undecodable or unopened input changes nothing |
| AgentSession.Session.HandleReplayRequest | agent/session.go:374-393 | with anything printed, one message with the last 1,048,576 bytes goes out under the current counter, which advances; with nothing printed, nothing changes |
| AgentSession.Session.HandleFileTransferStart | agent/file_transfer.go:89-135 | decrypts first, then accepts or refuses with the stated reason |
| AgentSession.Session.HandleFileTransferChunk | agent/file_transfer.go:137-172 | an unknown or expired transfer is dropped before decrypting; otherwise the slice is stored and every tenth is reported |
| AgentSession.Session.HandleFileTransferEnd | agent/file_transfer.go:174-245 | the pending transfer always goes; the answer is complete, missing chunks or a disk error |
| Crypto.BuildNonceGo | agent/crypto.go:105-113 | the agent's nonce is direction, 8-byte big-endian counter, three zeros |
| Crypto.BuildNonceBrowser | packages/web/src/lib/e2e.ts:171-185 | the browser's two 32-bit writes give the same 12 bytes for every counter up to 2^53 |
| Crypto.NonceLayout | agent/crypto.go:105-113 | byte 0 is the direction, bytes 1 to 8 spell the counter most significant first, the rest is zero |
| Crypto.NonceInjective | agent/crypto.go:102-113 | a nonce determines its direction and its 64-bit counter |
| Crypto.BigEndianInjective | agent/crypto.go:105-113 | fixed-width big-endian bytes determine the number |
| Crypto.NoncesDistinctExactly | packages/web/src/lib/e2e.ts:171-185 | a sender's first n nonces all differ exactly while n <= 2^64 (agent) or n <= 2^53 + 1 (browser) |
| Crypto.ConcatBytes | packages/web/src/lib/e2e.ts:33-43 | the two loops concatenate the arrays |
| Encodings.BuildKeyExchangeSignData | agent/crypto.go:149-162 | the agent builds the key-exchange transcript |
| Encodings.KeyExchangeSignDataInBrowser | packages/web/src/lib/e2e.ts:238-263 | the browser builds the same bytes |
| Encodings.BuildResizeHMACData | agent/crypto.go:164-176 | the agent builds the resize text |
| Encodings.ResizeHMACDataInBrowser | packages/web/src/lib/e2e.ts:273-289 | the browser builds the same bytes, also for sizes outside 32 bits |
| Encodings.BuildCloseHMACData | agent/crypto.go:178-188 | the agent builds the close text |
| Encodings.CloseHMACDataInBrowser | packages/web/src/lib/e2e.ts:295-301 | the browser builds the same bytes |
| Encodings.KeyExchangeLayout | agent/crypto.go:149-162 | the 16 prefix bytes, the agent's key, the browser's key, the session id, each at its place |
| Encodings.ResizeLayout | agent/crypto.go:164-176 | the 10 prefix bytes, the session id, columns, then rows, four bytes each |
| Encodings.CloseLayout | agent/crypto.go:178-188 | the 9 prefix bytes and the session id |
| Encodings.SaltLayout | agent/crypto.go:59-70 | "browser:", the browser's key, "agent:", the agent's key, each at its place |
| Encodings.KeyExchangeDataDetermines | agent/crypto.go:149-162 | with 65-byte keys the transcript determines both keys and the session id |
| Encodings.SaltInputDetermines | agent/crypto.go:59-70 | the HKDF salt input determines both public keys |
| Encodings.ResizeDataDetermines | agent/crypto.go:164-176 | resize data determines the session id and both sizes modulo 2^32 |
| Encodings.CloseDataDetermines | agent/crypto.go:178-188 | close data determines the session id |
| Encodings.TextsAreDisjoint | agent/crypto.go:149-188 | no key-exchange, resize and close text is ever equal to one of another kind |
| KeyBinding.KeysAgreeExactly | agent/crypto.go:59-92 | the two ends derive equal B2A, A2B and HMAC keys exactly when they mean the same pair of public keys |
| KeyBinding.TerminalTabs.CreateSession | packages/web/src/components/TerminalTabs.tsx:65-74 | the new key pair is pending under its request id, its timer is armed, and pty.create carries the public key and the id |
| KeyBinding.TerminalTabs.OnPtyCreated | packages/web/src/components/TerminalTabs.tsx:88-105 | a reply of the tab group's own agent moves the pending pair of its own request to its session, at most once; any other reply changes nothing |
| KeyBinding.TerminalTabs.OnCreateError | packages/web/src/components/TerminalTabs.tsx:178-186 | an error of the own agent that names a request takes that entry out of the pending pairs, and any other error changes nothing |
| KeyBinding.TerminalTabs.ForgetRequest | packages/web/src/components/TerminalTabs.tsx:70-72 | the 30s timer takes its own entry out of the pending pairs and changes nothing else |
| KeyBinding.TerminalTabs.HandleCloseTab | packages/web/src/components/TerminalTabs.tsx:201-214 | closing a tab forgets the key pair, the agent's half and the HMAC key, and closes a live session, authenticated exactly when its HMAC key was known |
| KeyBinding.PendingFollows | packages/web/src/components/TerminalTabs.tsx:65-74 | a request is pending from its creation until it times out, fails or is answered by its own agent, with the key it was made with |
| KeyBinding.BoundFollows | packages/web/src/components/TerminalTabs.tsx:88-105 | a key pair is bound by its own agent's reply that names a pending request, to that request's pair, until the tab is closed |
| KeyBinding.ForgottenStays | packages/web/src/components/TerminalTabs.tsx:70-72 | in every run, after a timeout or an error a request is not pending in that tab group in any later state, no later reply under it binds anything, and everything else stays |
| KeyBinding.RunKeepsBinding | packages/relay/src/router.ts:91-109 | between several browsers and agents, some of which may say anything, with concurrent requests, lost, late, repeated and reordered replies, refusals and timeouts: every reply of an honest agent answers its own session's request, and every pair bound in its tab groups is its own |
| KeyBinding.BoundKeysAgree | packages/web/src/components/TerminalTabs.tsx:88-105 | in every such run, in the tab group of an honest agent, the pair bound to a session is the one whose public key the agent used for it; with the agent's half the signature verifies and both ends hold equal keys |
| KeyBinding.SessionsNeverShareKeys | agent/session.go:113-175 | no two sessions have a key in common, in any direction |
| KeyBinding.EstablishedMeansAgentAgreed | packages/web/src/components/TerminalView.tsx:174-206 | whatever a relay does, keys that were checked with the agent's own identity key are established only if the agent itself performed that handshake for that session with that browser key |
| KeyBinding.AgreedExactly | packages/web/src/hooks/useAgentStore.ts:51-86 | every established key is one the agent agreed to, in all runs, exactly when the relay names no identity key but the agent's own |
| KeyBinding.OtherKeyIsBelieved | packages/web/src/components/TerminalView.tsx:174-206 | a reachable run in which a relay that names another identity key has a terminal establish keys although the agent performed no handshake, and nothing is reported |
| KeyBinding.NoWarningMeansAgreed | packages/web/src/App.tsx:210-229 | with the agent's key stored before, agent lists that name announced keys only and no other key accepted: when all comparisons are done and none reported a mismatch, every established key was agreed to by the agent |
| Transfer.Reassemble | agent/file_transfer.go:198-208 | the loop returns chunks 0..n-1 in order, or nothing if one is missing |
| Transfer.AssembledWhenComplete | agent/file_transfer.go:198-208 | reassembly succeeds exactly when no index is missing |
| Transfer.AnyOrderRoundTrip | agent/file_transfer.go:160-208 | slices in any order with repetitions give back the buffer exactly when none is missing |
| Transfer.OnePendingTransfer | agent/file_transfer.go:115-130 | at most one transfer is pending per session in every run of handlers |
| SessionObserved.StartAnswers | agent/file_transfer.go:89-135 | a start that opens and parses is acknowledged with the first reason against it, or accepted and pending; any other is dropped in silence |
| SessionObserved.ChunkAnswers | agent/file_transfer.go:137-172 | a chunk of no pending transfer changes nothing, one of a transfer over a minute old drops it, any other that opens is stored, and every tenth is reported |
| SessionObserved.EndAnswersOnce | agent/file_transfer.go:174-245 | after the end nothing of the transfer is pending; it is answered exactly when it opens and parses, by what is missing, by the disk, or by the file and whether its checksum matches |
| Transfer.SentInOrder | agent/session.go:94-99 | whatever the handlers do, the k-th message a session sends is sealed at counter k modulo 2^64 |
| SessionObserved.AnswersInOrder | agent/session.go:269-393 | over any run the replays sent are one for each replay request after some output, each the last megabyte by then, in order; and the pieces of output sent are the non-empty reads, in order |
| Transfer.SessionIsChannelRun | agent/session.go:269-393 | every run of a session's handlers is a run of the channel model, whose log is the messages sent, in order, and whose output is what the PTY printed |
| Transfer.HandlersReceive | agent/file_transfer.go:59-71 | a handler that decrypts receives exactly as the channel model's agent, and only pty.data types what it opened; every other handler leaves the counter alone |
| Transfer.HandlersOpenPrefix | agent/session.go:324-351 | over any network and whatever the handlers refuse, what a run of handlers opens is a prefix of what the browser sealed, as many as RecvCounter says, and what is typed is what of it came as pty.data |
| Transfer.WholeTransfer | agent/file_transfer.go:89-245 | start, then any typing, output, replays and messages of other transfers among the slices, which come in any order before the timeout, then the end: the saved file is the buffer exactly when every slice came, otherwise the end refuses for missing chunks, or for the disk; no transfer stays pending |
| Transfer.UploadArrives | agent/file_transfer.go:89-245 | an upload and the typing meanwhile, delivered in order, is saved with a matching checksum; nothing stays pending and the agent's counter has moved by one for each payload, start and end included |
| Transfer.InStepExactly | agent/file_transfer.go:143-158 | payloads delivered in order, with output and replay requests anywhere, keep the agent's counter in step exactly as long as each meets a handler that decrypts |
| Transfer.StaysBehind | agent/file_transfer.go:59-71 | an agent whose counter is behind the next payload opens nothing and types nothing of what comes in order |
| Transfer.FirstRefusalIsFinal | agent/file_transfer.go:143-158 | the first payload that meets no decrypting handler is the end: for every later run in order the counter and what was typed stay as they were |
| Scrollback.RingBuffer.Write | agent/scrollback.go:24-47 | any write, wrapping, exactly filling or larger than the buffer, leaves the last bytes of everything ever written |
| Scrollback.RingBuffer.Contents | agent/scrollback.go:49-70 | returns exactly the last min(total, capacity) bytes ever written |
| Osc94.ParseDigits | packages/web/src/lib/parseOsc9_4.ts:23-31 | the maximal run of digits and its decimal value |
| Osc94.AttemptIsGrammar | packages/web/src/lib/parseOsc9_4.ts:40-83 | the attempt at a start succeeds exactly when a sequence of the grammar starts there |
| Osc94.ParseOsc9_4 | packages/web/src/lib/parseOsc9_4.ts:40-83 | despite its early break and its jumps the scanner returns the last match over all starts |
| Osc94.LastMatchIsGreatest | packages/web/src/lib/parseOsc9_4.ts:33-40 | that result is what the sequence with the greatest start says, and null exactly if there is none |
| Osc94.NoneInside | packages/web/src/lib/parseOsc9_4.ts:73-79 | no sequence starts strictly inside another |
| Osc94.ParseIsLocal | packages/web/src/lib/parseOsc9_4.ts:40-83 | a result found in b is the result for anything followed by b |
| Osc94.PrintedIsParsed | packages/web/src/lib/parseOsc9_4.ts:23-83 | a printed sequence is read back with its value capped at 100, after any prefix and before any suffix without a sequence |
| Osc94.HalfWay | packages/web/src/lib/parseOsc9_4.ts:33-40 | the eleven bytes ESC ] 9 ; 4 ; 1 ; 5 0 BEL say state 1 at 50 |
| RateLimit.RateLimitStore.Check | packages/relay/src/rateLimit.ts:22-34 | opens a window, counts in the open one, or refuses at the cap |
| RateLimit.RateLimitStore.Sweep | packages/relay/src/rateLimit.ts:14-19 | the deleting loop keeps exactly the entries whose window is not over |
| RateLimit.StoreStaysCapped | packages/relay/src/rateLimit.ts:26-28 | no run makes the store larger than 50,000 entries |
| RateLimit.AdmissionsInAnyInterval | packages/relay/src/rateLimit.ts:13-35 | over any run with nondecreasing times and sweeps anywhere, every closed interval of length windowMs holds at most 2 * max(1, maxRequests) - 1 admissions of a key |
| RateObserved.AdmittedExactly | packages/relay/src/rateLimit.ts:13-35 | with room in the store, a check is admitted exactly when it opens a window of its key or is among the first maxRequests checks of the window it falls in, whatever is swept or checked for other keys |
| RateLimit.BoundIsMet | packages/relay/src/rateLimit.ts:22-34 | for every windowMs >= 1 some run reaches that number, so no smaller bound holds |
| RateLimit.SweepsAreInvisible | packages/relay/src/rateLimit.ts:14-19 | leaving out any of the sweeps changes no decision, as long as the store of the run without them stays below the cap before each check |
| RateLimit.NoSweepIsMissed | packages/relay/src/rateLimit.ts:14-19 | in particular all of them, while the store never swept stays below the cap |
| RateLimit.SweepChangesExactly | packages/relay/src/rateLimit.ts:14-28 | a sweep changes the next decision exactly when the store was full, the sweep made room, and the key has no open window |
| AuditLog.AuditTable.Audit | packages/relay/src/db.ts:310-312 | one row is appended with an id above all others |
| AuditLog.AuditTable.QueryAuditLogs | packages/relay/src/db.ts:344-408 | the conditions, the order and the limit + 1 rows fetched give the window of matching rows at the cursor, hasMore and total |
| AuditObserved.AnswerExactly | packages/relay/src/db.ts:344-408 | every row returned has the requested action and user, lies within the date bounds, contains the search text and lies beyond the cursor; a row that does is returned, or there is more and it lies farther on; the page size is 50 or the requested one kept between 1 and 200 |
| AuditObserved.TotalExactly | packages/relay/src/db.ts:398-408 | without a cursor the total is the number of rows that meet the conditions |
| AuditLog.PageExactly | packages/relay/src/db.ts:372-396 | a page is the limit candidates next to the end it starts from, newest first; hasMore is true exactly when a further candidate exists in the direction of travel |
| AuditLog.WalkIsWhole | packages/relay/src/db.ts:376-396 | after k pages of following `before` over a growing table the client has exactly the first k * limit rows, in descending order, of those matching at the first query; at the end it has all of them, as many as the first total |
| AuditLog.WalkEnds | packages/relay/src/db.ts:388-396 | every such walk ends |
| AuditLog.BackUndoesNext | packages/relay/src/db.ts:374-396 | going on to the next page and back with `after` = its first id returns the first page row for row, however many rows were appended |
| AuditLog.DaysAreInclusive | packages/relay/src/db.ts:357-364 | date filters given as days include the whole of that day |
| Search.LikeFindsText | packages/relay/src/db.ts:365-370 | without a backslash the escaped pattern matches exactly the texts that contain the input, up to ASCII case |
| Search.LiteralSearchExactly | packages/relay/src/db.ts:365-370 | the escaping gives a literal search exactly for inputs without a backslash |
| Yaml.Parse | agent-mac/RttysAgent/Helpers/YAMLParser.swift:7-25 | the loop over the lines collects every entry, later lines winning |
| YamlObserved.SaysExactly | agent-mac/RttysAgent/Helpers/YAMLParser.swift:9-22 | a line has an entry exactly when it reads as blanks, key, blanks, colon, blanks, value, blanks with no number sign first, and the value loses one pair of equal quotes |
| YamlObserved.LaterLinesWin | agent-mac/RttysAgent/Helpers/YAMLParser.swift:9-22 | a key is in the result exactly when some line says something of it, with what the last such line says |
| Yaml.Serialize | agent-mac/RttysAgent/Helpers/YAMLParser.swift:27-40 | the loop prints the non-empty listed entries in order |
| YamlObserved.PrintsInOrder | agent-mac/RttysAgent/Helpers/YAMLParser.swift:27-40 | one line for each listed key with a value, in order, quoted when it holds a colon, a number sign or a double quote |
| Yaml.ComesBackExactly | agent-mac/RttysAgent/Helpers/YAMLParser.swift:14-21 | a value survives exactly when it is quoted by the printer, or trimmed and not in single quotes |
| Yaml.RoundTripExactly | agent-mac/RttysAgent/Helpers/YAMLParser.swift:7-40 | parsing what was printed gives back the printed entries exactly when every key is trimmed without colon, line break or leading '#', and every value has no line break and survives |

## Left out

- User interface: React rendering and remounting, DOM, mouse and paste events, Swift views.
- Libraries and I/O: PTY, clipboard, HTTP, cookies, JWT, bcrypt, SQLite internals, JSON, WebSocket framing and message size limits. A pty.create the agent refuses for its shell, directory or key is one event; a disk failure is one flag.
- Internals of AES-GCM, ECDH, HKDF, HMAC, SHA-256 and Ed25519: ideal functions instead.
- Agent admission (token and fingerprint checks before the hello takes effect), database ownership queries and the other audit actions: parameters of events, or not in the model.
- Pings, latency smoothing, reconnect backoff, log eviction, user and token administration: they would only add easy members.
- Channel.AcceptedIsPrefix: does not promise that every sent message is accepted; counter and enqueueing are two steps of two goroutines, so a later counter can reach the socket first. The five-second limit of Send is the step GiveUp.
- Channel.AcceptedIsPrefix: counters above 2^53 are excluded, since the browser's counter stops there.
- Remount.NonceRepeatsExactly: the queue of a terminal goes when it is torn down; a job of the old queue that would still find the new session is not modelled.
- Channel.TakenIsPrefix: one key exchange of the browser per run; Remount.NonceRepeatsExactly is about several.
- KeyBinding.NoWarningMeansAgreed: one agent; a check for another agent that saves an older copy of the stored keys is not modelled.
- KeyBinding.RunKeepsBinding: request ids, session ids and ephemeral keys are fresh, as random identifiers and key generation give.
- Transfer.WholeTransfer: the start and the end are sealed at the counter the agent expects, and so is every slice that counts as arrived; Transfer.InStepExactly says when that is so.
- Osc94.ParseOsc9_4: digit runs are unbounded integers; the program's floating-point value differs only above 2^53, where state is rejected and value capped either way.
- AuditLog.AuditTable.QueryAuditLogs: limits and cursors are integers; NaN and fractions are not modelled, nor is a search text with an embedded NUL or SQLite's pattern length limit.
- The audit page's own Previous button passes another cursor than the one AuditLog.BackUndoesNext is about; it is not part of this model.
- Yaml.Parse: text is a sequence of Unicode scalars; Swift's grouping of combining marks with the character before them is not modelled.
- RelayService.Relay.SendToSessionSubscribers: loops over the browsers take them in any order, since each has its own socket; only the order of the sessions map is kept.
- A replaced agent connection's socket leaves the model at once; what it still receives or sends after its close is not recorded.
