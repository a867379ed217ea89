# RemoteTab in Dafny

RemoteTab lets a phone watch and control one browser tab. A signaling service pairs phone and laptop and relays
their WebRTC negotiation; the two ends then authenticate each other over a data channel, and the phone sends control
frames that the laptop's input service turns into input on the tab. This project models the logic of that path and
proves properties of it.

The model follows the program's own form. Objects that update their fields are classes whose methods are proved equal
to step functions on values; properties of whole runs are proved about those step functions. Asynchronous functions
are split at their awaits, so a run is any interleaving of the pieces.

| files | what they model |
|---|---|
| `basics`, `ordered_map`, `signaling_types` | identifiers, insertion-ordered tables, signaling frames and records |
| `router_spec`, `router_invariant`, `router_steps`, `router_outcomes`, `router_notices`, `router_progress`, `router_runs`, `router_sessions`, `router_histories`, `router_auth`, `router_failures`, `router_witnesses` | the signaling router as a step system: one invariant over its seven tables, what each handler does and whom it tells, what must get through, what every run keeps, and short runs that happen |
| `registries`, `router` | the registries and the router as classes with mutable tables |
| `utf8`, `transcript` | canonical transcripts and their bytes |
| `handshake_spec`, `handshake`, `handshake_runs`, `handshake_settling` | the mutual peer handshake: any number of instances, ideal signatures, an adversary on the network |
| `utf16_text`, `control`, `frame_text` | text splitting, the frame schema, its JSON text and its size on the wire, sender numbering, sequence guard |
| `input_sender_spec`, `input_sender`, `input_sender_runs`, `input_sender_timers` | the prioritized input sender over a channel that refuses as it pleases |
| `two_queues` | the touch bridge's sender and the keyboard's over one numbering and one channel |
| `gesture`, `video_rect`, `touch_bridge`, `touch_bridge_runs` | touches: classification, letterbox geometry over the reals, scroll conservation |
| `input_service_spec`, `input_service`, `input_service_runs`, `input_service_arming`, `keyboard_bridge`, `tap_to_page` | the laptop's input gate, and text and taps end to end |
| `rate_limit` | the two rate limiters |

What is assumed: signatures, fingerprints and JSON are ideal; connection ids and pairing ids are never drawn twice;
a handshake is started once in a run; strings are shorter than 2^30 code units where transcripts are compared; times and
coordinates are mathematical numbers, and the rate limiters' clock never runs back. A channel is a function from
attempts to accepted or refused, and every theorem about it holds for all of them. Timers may fire at any time, even
late.

Where the code does not do what its documentation or a comment says, the model follows the code and the difference is
a theorem:

- The stale sweep skips the unwinding of a close (`RouterSteps.SweepKeepsInvExactly`).
- A proof can authenticate a connection that is already gone (`RouterAuth.LateProofHappens`).
- A refused move, wheel delta or direct frame has already taken its number (`InputSenderRuns.InSyncExactly`,
  `InputSenderRuns.BrokenNumberingStopsTheReceiver`), although frames are documented as numbered in send order without
  burning numbers; for urgent input the promise holds (`InputSenderRuns.UrgentReachesTheReceiver`).
- A wheel delta that the channel refuses is kept for the next flush, but no flush is scheduled for it: it waits for
  the next wheel input (`InputSenderTimers.WheelArmedExactly`).
- One shared sender is documented to keep touch and keyboard in one order; the touch bridge ignores it and makes a
  sender of its own, so the phone has two queues over one numbering. They reach the receiver exactly under the
  condition of `TwoQueues.TwoQueuesInStepExactly`; a key that overtakes a refused touch is an instance
  (`TwoQueues.TwoQueuesOvertake`).
- Required mode does not ask the desktop end of a session to authenticate (`RouterSteps.UnprovenDesktopOpensExactly`,
  `RouterWitnesses.UnprovenDesktopHappens`), and a device revoked while its signature is being checked is still
  authenticated (`RouterAuth.RevokedAuthenticatesExactly`).
- Drag and tap slops are in pixels, but the bridge feeds normalized points, so no drag is ever recognized
  (`TouchBridgeRuns.BridgeNeverMovesThePointer`).
- `splitTextChunks` with a maximum of 1 stops at a surrogate pair (`Utf16Text.SplitLosesNothingExactly`).
- Clearing the table of the device limiter forgets every count. The bound per device holds with fewer than maxKeys
  devices (`RateLimit.FixedWindowBoundForFewKeys`), is lost with exactly maxKeys from 3 on
  (`RateLimit.FullTableBreaksTheBound`), and with one device more there is no bound at all (`RateLimit.ClearingForgets`).
- `docs/CONTROL_PROTOCOL.md` calls sequence numbers monotonically increasing and lists pairing states VERIFIED and
  ACCEPTED; the code demands exactly the next number and has no such states.

## Model

| member | source | states |
|---|---|---|
| RouterInvariant.RequestKeyInjective | apps/signaling/src/router.ts:482-484 | two pending requests with the same key text are between the same two devices, because no id contains the separator |
| RouterInvariant.OpenKeepsInv | apps/signaling/src/router.ts:83-86 | a new connection keeps the invariant over all seven tables |
| RouterInvariant.SupersedeLeavesNone | apps/signaling/src/router.ts:311-316 | cancelling the first open pairing met leaves the desktop connection with none: there was at most one |
| RouterInvariant.RequestNamesPhone | apps/signaling/src/router.ts:486-521 | a pending request was made by a live, permitted phone connection of the very device its key names |
| RouterInvariant.ResumeKeepsInv | apps/signaling/src/router.ts:206-278 | both continuations of a suspended proof keep the invariant, whatever happened meanwhile |
| RouterInvariant.DispatchKeepsInv | apps/signaling/src/router.ts:118-161 | every frame of every type from any connection in any state keeps the invariant |
| RouterInvariant.ConnClosedKeepsInv | apps/signaling/src/router.ts:642-676 | unwinding a closed connection keeps the invariant |
| RouterSteps.DispatchIsPairingStep | apps/signaling/src/router.ts:298-480 | no frame makes a pairing record go backwards, vanish, or change once it is terminal |
| RouterSteps.ConnClosedOnlyCancels | apps/signaling/src/router.ts:649-660 | a close changes nothing of a pairing but its state |
| RouterSteps.DispatchNoReceipts | apps/signaling/src/router.ts:118-161 | only `pair.create` and `pair.accept` are ever answered with `pair.created` or `pair.accepted` |
| RouterSteps.AcceptOutcome | apps/signaling/src/router.ts:392-466 | an acceptance goes through exactly for the presenting desktop of a JOINED pairing; it sends both recorded identities; the branch without a phone is never taken |
| RouterOutcomes.RejectOutcome | apps/signaling/src/router.ts:418-431 | a rejection goes through exactly when the sender is the presenting desktop of a JOINED pairing: the record becomes REJECTED, nothing else changes and both participants are told; otherwise nothing changes and one error goes back |
| RouterHistories.RejectedForGood | apps/signaling/src/router.ts:392-431 | over runs: a rejected pairing is REJECTED ever after, and neither that event nor any later one announces it as accepted |
| RouterOutcomes.DecisionRefusals | apps/signaling/src/router.ts:392-417 | for both decisions each refusal has its exact condition: expelled, unknown, already used or expired |
| RouterOutcomes.CreateOutcome | apps/signaling/src/router.ts:298-338 | a create goes through exactly for a permitted desktop; it cancels every open pairing that desktop still presents and no other, and the new record holds the sender's key material and expires ttlSeconds later |
| RouterOutcomes.JoinOutcome | apps/signaling/src/router.ts:340-390 | a join goes through for a permitted phone of an unrevoked device, an open pairing and in time; its sender and key material are recorded, it reaches the presenting desktop, no other pairing changes, and everybody else gets one error |
| RouterOutcomes.JoinRefusals | apps/signaling/src/router.ts:340-371 | each refusal of a join has its exact condition, and a refused join changes nothing but the expiry it finds |
| RouterSteps.OpenSessionIsLive | apps/signaling/src/router.ts:523-566 | an open session joins two different live connections bound to its recorded roles and devices |
| RouterSteps.OfferReachesThePhone | apps/signaling/src/router.ts:615-639 | an offer is relayed exactly when its sender is the open session's desktop, unchanged and to the live phone alone; otherwise at most an error goes back |
| RouterSteps.AnswerReachesTheDesktop | apps/signaling/src/router.ts:615-639 | an answer is relayed exactly when its sender is the open session's phone, unchanged and to the live desktop alone |
| RouterSteps.IceReachesThePeer | apps/signaling/src/router.ts:615-639 | ICE is relayed exactly between the two participants of an open session, to the other one, never back to its sender |
| RouterSteps.CloseForgets | apps/signaling/src/router.ts:642-676 | after a close no handle, index entry, request, open pairing or open session mentions the connection, and every record that did not mention it is unchanged |
| RouterNotices.CloseCancelsExactly | apps/signaling/src/router.ts:649-660 | a close cancels exactly the open pairings that mention the connection and leaves every other record as it is |
| RouterNotices.CloseTellsExactly | apps/signaling/src/router.ts:642-671 | the joined phone of every open pairing the connection presented and the other participant of every open session it was in get exactly one notice each; nobody else gets any |
| RouterSteps.SweepKeepsInvExactly | apps/signaling/src/server.ts:257-265 | the stale sweep, which unregisters before it reports the close, keeps the invariant if and only if nothing depended on the connection |
| RouterWitnesses.SweepBreaksARun | apps/signaling/src/server.ts:257-265 | such a connection is reached by every run of open, hello and create: sweeping it then breaks the invariant |
| RouterSteps.AcceptStoresExactly | apps/signaling/src/router.ts:523-566 | an acceptance stores its session exactly when the sender is a desktop naming its own device, the request is pending and neither device is in an open session; otherwise no session changes |
| RouterSteps.AcceptOverwritesExactly | apps/signaling/src/router.ts:523-566 | an acceptance destroys the open session k if and only if that guard holds before the call and the id it names is k; what replaces it is between two other devices |
| RouterSteps.UnprovenDesktopOpensExactly | apps/signaling/src/router.ts:523-566 | a session opens for a desktop connection outside the authenticated set exactly when the guard holds and the connection is outside it: the desktop end is not asked to authenticate, in required mode either |
| RouterOutcomes.AcceptedOutcome | apps/signaling/src/router.ts:523-566 | an acceptance by a desktop consumes the request it answers whatever becomes of it; it reaches the phone of that request when the guard holds, and a conflict is told to both |
| RouterNotices.TurnedDown | apps/signaling/src/router.ts:568-586 | after a desktop's rejection no pending request asks for it, the phone of each that did gets the frame exactly once, requests for others are unchanged and nobody else is told |
| RouterNotices.TurnedDownCannotBeAccepted | apps/signaling/src/router.ts:523-586 | after that every acceptance by this desktop is refused as unknown and changes nothing |
| RouterOutcomes.RequestOutcome | apps/signaling/src/router.ts:486-521 | a request goes through for a permitted phone when neither device is revoked and the desktop's is online; it is recorded under exactly these two devices and reaches the one connection of the desktop's device |
| RouterOutcomes.RequestRefusals | apps/signaling/src/router.ts:486-508 | each refusal of a request has its exact condition |
| RouterHistories.RequestStepExactly | apps/signaling/src/router.ts:486-586 | for every event of a run: a request is pending afterwards exactly if the event records it, or it was pending and is not answered, turned down or orphaned by a closed socket |
| RouterHistories.RequestsExactly | apps/signaling/src/router.ts:486-676 | in every run the pending requests are exactly those recorded and not dropped since, each as its latest sender made it |
| RouterHistories.SessionsAreRequested | apps/signaling/src/router.ts:486-566 | a session opens only on request: its phone asked for this desktop earlier, stayed connected, and was neither answered nor turned down since |
| RouterNotices.SessionCloseOutcome | apps/signaling/src/router.ts:588-613 | a close goes through exactly for a participant of a session on record; only that session becomes CLOSED, and the other participant of an open one is live and gets the frame exactly once |
| RouterOutcomes.RelayRefusals | apps/signaling/src/router.ts:615-639 | each refusal of a relayed signal has its exact condition, and a relay changes no table |
| RouterOutcomes.HelloOutcome | apps/signaling/src/router.ts:163-204 | a hello binds and challenges exactly a live connection without a role under a device that no connection holds; everything else is expelled and changes nothing |
| RouterOutcomes.UnboundIsExpelled | apps/signaling/src/router.ts:124-129 | before its hello a connection gets nothing but hello and proof through |
| RouterOutcomes.PingOutcome | apps/signaling/src/router.ts:153-155 | a ping is answered with its own time stamp and changes nothing but when the connection was last heard |
| RouterOutcomes.ServiceFramesAreExpelled | apps/signaling/src/router.ts:156-160 | a client that sends a frame only the service sends is expelled |
| RouterHistories.LastSeenExactly | apps/signaling/src/registry.ts:57-60 | over every run the last-seen time is that of the connection's latest frame other than hello and proof, or of its opening |
| RouterWitnesses.UnprovenDesktopHappens | apps/signaling/src/router.ts:523-566 | in required mode some run opens a session between a phone that proved its key and a desktop that only said hello |
| RouterSteps.DispatchKeepsTrust | apps/signaling/src/router.ts:118-161 | no frame touches the device registry or the authenticated set, and only `hello` changes a binding or a pending challenge |
| RouterSteps.VerifyDevices | apps/signaling/src/router.ts:229-278 | a completed proof enrols at most the proving device, none in required mode, and authentication implies enrolment with the proved key |
| RouterProgress.PairingSucceeds | apps/signaling/src/router.ts:298-466 | from every state that satisfies the invariant, create, join before the expiry and accept pair two permitted connections: the join reaches the presenting desktop and both get exactly the two identities sent in |
| RouterProgress.SessionOpens | apps/signaling/src/router.ts:486-639 | from every such state a request, its acceptance and an offer get through between two unrevoked devices in no open session, each to exactly the right connection |
| RouterProgress.ProofAuthenticatesExactly | apps/signaling/src/router.ts:206-278 | a good proof over the pending challenge authenticates an unrevoked device exactly when the registry holds that key, or nothing and the service is open |
| RouterOutcomes.ProofOutcome | apps/signaling/src/router.ts:227-278 | the end of a proof exactly: who is authenticated, that the challenge is spent, what is enrolled under which key and name, and that a refused proof changes nothing but the failure count |
| RouterOutcomes.EnrollOutcome | apps/signaling/src/device-registry.ts:43-68 | the registry is insert-only, and each of its three answers has its exact condition |
| RouterFailures.FailuresCounted | apps/signaling/src/router.ts:280-284 | over runs: the counter of a pending challenge is the number of proofs of that connection that failed |
| RouterFailures.FailureExpelsExactly | apps/signaling/src/router.ts:280-291 | over runs: a failed proof is answered with nothing and expels its connection exactly in required mode, or when it is the fifth failure of a pending challenge |
| RouterFailures.RevokedIsExpelledExactly | apps/signaling/src/router.ts:219-226 | a proof whose fingerprint matches is expelled exactly when its device is revoked by then; otherwise it goes on to the signature check |
| RouterFailures.AuthenticatedIsUnchallenged | apps/signaling/src/router.ts:265-266 | over runs: an authenticated connection has no challenge pending, ever after |
| RouterFailures.ProvedChallengeIsSpent | apps/signaling/src/router.ts:206-216 | so its next proof is not looked at: the sender is expelled |
| RouterFailures.AuthTranscriptExactly | apps/signaling/src/router.ts:229-236 | what a device signs determines the challenge and the device: equal bytes mean equal nonce and id, and conversely |
| RouterFailures.AuthIsNoPeerProof | apps/signaling/src/router.ts:229-236 | a signature made for the service is never a proof to a peer, nor the other way round |
| RouterRuns.ReachableInv | apps/signaling/src/router.ts:75-690 | in every state of every run the seven tables satisfy the invariant |
| RouterRuns.ReachableSessions | apps/signaling/src/router.ts:523-566 | in every reachable state no device is in two open sessions, and both ends of each are live and bound to exactly the recorded role and device |
| RouterRuns.ReachablePairings | apps/signaling/src/router.ts:298-466 | in every reachable state an open pairing is presented by the live desktop connection of its device, which presents no other, and a JOINED pairing is joined by a live phone connection |
| RouterRuns.ReachableRequests | apps/signaling/src/router.ts:486-521 | in every reachable state a pending request comes from the live phone connection bound to the device its key names |
| RouterRuns.ReachableIndex | apps/signaling/src/registry.ts:40-70 | in every reachable state the device index is the exact inverse of the bound connections |
| RouterRuns.ReachableTrust | apps/signaling/src/router.ts:294-304 | in required mode every pending request and open session has an authenticated phone, every open pairing was presented and every JOINED one joined from an authenticated connection; the desktop end of a session is not among it |
| RouterSessions.SessionStepExactly | apps/signaling/src/router.ts:523-613 | what any event makes of a session record: replaced exactly by an acceptance that names its id, closed exactly by a participant's close or the close of one of its sockets, otherwise unchanged, a CLOSED record too |
| RouterSessions.SessionLifecycle | apps/signaling/src/router.ts:523-676 | over a run session records never vanish, and one that no such event touches in between is unchanged |
| RouterRuns.StepIsPairingStep | apps/signaling/src/router.ts:298-480 | every event of a run, not only frames, moves pairing records forward only |
| RouterRuns.PairingLifecycle | apps/signaling/src/router.ts:298-466 | along every run a pairing goes from CREATED to JOINED to CONSUMED or REJECTED, or from an open state to EXPIRED or CANCELLED; terminal records are frozen; presenter, its key material and times never change |
| RouterRuns.OnlyAcceptAnnounces | apps/signaling/src/router.ts:433-466 | a `pair.accepted` is only ever sent by a `pair.accept` that turns that pairing from JOINED to CONSUMED |
| RouterRuns.AcceptedAtMostOnce | apps/signaling/src/router.ts:392-466 | over a whole run a pairing id is accepted at most once |
| RouterRuns.RecordsAreSourced | apps/signaling/src/router.ts:317-387 | the key material on record is that of the creating `pair.create` and of the latest `pair.join` passed on |
| RouterRuns.AcceptanceCarriesTheKeys | apps/signaling/src/router.ts:433-466 | the two frames of an acceptance go to the presenting desktop and to the latest joiner and carry exactly the identities those two sent |
| RouterAuth.AuthenticatedMeansProved | apps/signaling/src/router.ts:206-278 | whenever a connection counts as authenticated, a proof over a nonce sent to that very connection verified under the key the registry still holds for its device |
| RouterAuth.DeviceHistory | apps/signaling/src/device-registry.ts:43-84 | over every run a registered key and fingerprint never change and a first revocation time is never altered |
| RouterAuth.RequiredModeEnrolsNobody | apps/signaling/src/router.ts:245-264 | in required mode no run adds or removes a device |
| RouterAuth.AuthenticatedStaysLiveExactly | apps/signaling/src/router.ts:265-266 | one event keeps the authenticated set within the live connections if and only if it is not a proof that completes after its socket closed |
| RouterAuth.LateProofHappens | apps/signaling/src/router.ts:206-278 | such a run exists for every verifying proof in open mode: the finished proof authenticates a dead connection |
| RouterAuth.RevokedAuthenticatesExactly | apps/signaling/src/router.ts:219-266 | over runs: an admitted proof authenticates a device that is revoked by then exactly when the device was revoked between the check after the fingerprint and the end of the signature check |
| RouterWitnesses.RevokedLateHappens | apps/signaling/src/router.ts:219-266 | such a run exists for every device that may prove its key |
| RouterAuth.ClosedStaysClosed | apps/signaling/src/registry.ts:62-70 | a connection id that closed is never live again, so a late authentication is never used |
| Registries.ConnectionRegistry.Register | apps/signaling/src/registry.ts:29-33 | a fresh entry without role or device |
| Registries.ConnectionRegistry.Bind | apps/signaling/src/registry.ts:40-51 | binds a known connection and indexes it; false, with nothing changed, for an unknown connection or a device that another live connection holds |
| Registries.ConnectionRegistry.Touch | apps/signaling/src/registry.ts:57-60 | moves the last-seen time of a known connection and nothing else |
| Registries.ConnectionRegistry.Unregister | apps/signaling/src/registry.ts:62-70 | removes the entry, and the index entry only when it still names this connection |
| Registries.MemoryPairingRepo.Store | apps/signaling/src/registry.ts:122-132 | create and update overwrite the record of that id |
| Registries.MemoryPairingRepo.FindOpenByDesktopConn | apps/signaling/src/registry.ts:134-139 | finds the first open pairing in insertion order presented by the connection, None exactly when there is none |
| Registries.MemoryPairingRepo.ListOpen | apps/signaling/src/registry.ts:141-152 | exactly the open pairings, in insertion order |
| Registries.MemorySessionRepo.Store | apps/signaling/src/registry.ts:181-191 | create and update overwrite the record of that id |
| Registries.MemorySessionRepo.FindOpenByDevice | apps/signaling/src/registry.ts:193-199 | the first session in insertion order that uses the device and is not closed, None exactly when there is none |
| Registries.MemorySessionRepo.ListOpen | apps/signaling/src/registry.ts:201-206 | exactly the open sessions, in insertion order |
| Registries.MemoryDeviceRegistry.Enroll | apps/signaling/src/device-registry.ts:43-68 | insert only: unless the device is new the registry is unchanged |
| Registries.MemoryDeviceRegistry.Revoke | apps/signaling/src/device-registry.ts:78-84 | records the first revocation and is true exactly then |
| Router.SignalingRouter.Open | apps/signaling/src/router.ts:83-86 | tables, frames sent and result equal the step function: a new connection with its handle |
| Router.SignalingRouter.OnHello | apps/signaling/src/router.ts:163-204 | tables, frames sent and result equal the step function: binds once, with a challenge that the model remembers, and refuses a second hello |
| Router.SignalingRouter.OnAuthProof | apps/signaling/src/router.ts:206-219 | tables, frames sent and result equal the step function: up to the fingerprint await |
| Router.SignalingRouter.ResumeFingerprint | apps/signaling/src/router.ts:219-226 | tables, frames sent and result equal the step function: from the fingerprint await, with the revocation check, to the signature await |
| Router.SignalingRouter.ResumeVerify | apps/signaling/src/router.ts:227-278 | tables, frames sent and result equal the step function: after the signature await: identity continuity, enrolment in open mode, authentication |
| Router.SignalingRouter.AuthFailed | apps/signaling/src/router.ts:280-291 | tables, frames sent and result equal the step function: counts a failure and closes at the limit |
| Router.SignalingRouter.OnPairCreate | apps/signaling/src/router.ts:298-338 | tables, frames sent and result equal the step function: supersedes the older open pairing and stores the new one |
| Router.SignalingRouter.OnPairJoin | apps/signaling/src/router.ts:340-390 | tables, frames sent and result equal the step function: revocation, terminal states and expiry refuse; otherwise the join is recorded and relayed to the desktop |
| Router.SignalingRouter.DecidePairing | apps/signaling/src/router.ts:392-466 | tables, frames sent and result equal the step function: accept and reject with all their refusals |
| Router.SignalingRouter.OnSessionRequest | apps/signaling/src/router.ts:486-521 | tables, frames sent and result equal the step function: revocation and offline checks, then the request is recorded and sent on |
| Router.SignalingRouter.OnSessionAccepted | apps/signaling/src/router.ts:523-566 | tables, frames sent and result equal the step function: consumes the request, refuses conflicts, stores the session |
| Router.SignalingRouter.OnSessionRejected | apps/signaling/src/router.ts:568-586 | tables, frames sent and result equal the step function: every pending request to this desktop is dropped and its phone told, in order |
| Router.SignalingRouter.OnSessionClose | apps/signaling/src/router.ts:588-613 | tables, frames sent and result equal the step function: closes for a participant only |
| Router.SignalingRouter.RelaySignal | apps/signaling/src/router.ts:615-639 | tables, frames sent and result equal the step function: one relay for offers, answers and ICE |
| Router.SignalingRouter.Dispatch | apps/signaling/src/router.ts:118-161 | on every frame, from any connection, tables, frames sent and result equal the step function, and the invariant still holds |
| Router.SignalingRouter.CancelOpenPairings | apps/signaling/src/router.ts:649-660 | tables, frames sent and result equal the step function: the loop over the connection's pairings cancels each and notifies the other side, in insertion order |
| Router.SignalingRouter.CloseOpenSessions | apps/signaling/src/router.ts:661-671 | tables, frames sent and result equal the step function: the loop over the connection's sessions closes each and notifies the other side |
| Router.SignalingRouter.DropRequests | apps/signaling/src/router.ts:672-674 | tables, frames sent and result equal the step function: the loop over pending requests drops those of the connection |
| Router.SignalingRouter.HandleConnClosed | apps/signaling/src/router.ts:642-676 | tables and frames sent equal the step function of a close, the invariant still holds, and an unknown connection unwinds nothing |
| Utf8.EncodeInjective | packages/crypto/src/transcript.ts:13 | UTF-8 (section 3 of RFC 3629) of two texts is equal only for equal texts |
| Utf8.EncodeLength | packages/crypto/src/transcript.ts:14 | between one and four bytes per code point |
| Transcript.DecodeEncode | packages/crypto/src/transcript.ts:9-25 | a decoder gives back any list of fields shorter than 2^32 bytes |
| Transcript.EncodeFieldsInjective | packages/crypto/src/transcript.ts:9-25 | two such lists with the same bytes are the same list |
| Transcript.TranscriptInjective | packages/crypto/src/transcript.ts:9-25 | transcripts of non-empty lists of text fields are equal if and only if the lists are: another domain, role or nonce is another transcript |
| Transcript.LongFieldCollides | packages/crypto/src/transcript.ts:19 | the 2^32 bound is sharp: one longer field wraps its length to zero and collides with a list of empty fields |
| Transcript.TotalLengthIsExact | packages/crypto/src/transcript.ts:14-15 | the computed buffer size is the size of the encoding |
| Transcript.FillBuffer | packages/crypto/src/transcript.ts:15-24 | the offset loop fills a buffer of that size exactly with the encoding |
| Transcript.EncodeIntoBuffer | packages/crypto/src/transcript.ts:9-25 | refuses the empty list and otherwise returns exactly the encoding |
| Handshake.PeerAuthHandshake.MaybeProve | packages/crypto/src/peer-handshake.ts:122-129 | the object equals its step function: signs at most once, and only its own role over the peer's nonce |
| Handshake.PeerAuthHandshake.Start | packages/crypto/src/peer-handshake.ts:58-70 | the object equals its step function: sends its challenge, arms the timer and proves itself if the peer's nonce came first |
| Handshake.PeerAuthHandshake.OnChallenge | packages/crypto/src/peer-handshake.ts:73-78 | the object equals its step function: only the first challenge counts |
| Handshake.PeerAuthHandshake.OnProof | packages/crypto/src/peer-handshake.ts:81-88 | the object equals its step function: fails at once without both nonces, otherwise verifies the other role over its own nonce |
| Handshake.PeerAuthHandshake.SignDone | packages/crypto/src/peer-handshake.ts:130-135 | the object equals its step function: sends the proof and verifies one that came earlier |
| Handshake.PeerAuthHandshake.VerifyDone | packages/crypto/src/peer-handshake.ts:88-95 | the object equals its step function: the result of a verification and what it settles |
| Handshake.PeerAuthHandshake.Fail | packages/crypto/src/peer-handshake.ts:152-156 | the object equals its step function: settles once |
| Handshake.PeerAuthHandshake.TimerFires | packages/crypto/src/peer-handshake.ts:62-67 | the object equals its step function: the timeout callback |
| HandshakeRuns.ReachableInv | packages/crypto/src/peer-handshake.ts:43-157 | in every run of any number of handshakes under an adversary, every signature of an honest key is a handshake's own proof or was made under another domain |
| HandshakeRuns.VerifiedExactly | packages/crypto/src/peer-handshake.ts:81-95 | in every run a verification returns verified exactly when the peer's signature over this side's own nonce is good, and failed otherwise, whether or not the handshake timed out or failed meanwhile |
| HandshakeRuns.VerifiedAfterTimeout | packages/crypto/src/peer-handshake.ts:58-95 | such a late success happens for any two matching configurations: a timeout lands while the proof is being verified |
| HandshakeRuns.BytesInjective | packages/crypto/src/peer-handshake.ts:103-120 | equal transcripts mean equal version, session, devices, fingerprints, role and nonce |
| HandshakeRuns.NotOtherPurpose | packages/crypto/src/peer-handshake.ts:103-120 | nothing signed under another domain is a peer-auth transcript |
| HandshakeRuns.Agreement | packages/crypto/src/peer-handshake.ts:58-150 | if a handshake returns verified, a handshake with the peer's key signed its own role over the verifier's own nonce for the same version, session, ids and fingerprints, and sent that proof |
| HandshakeRuns.MutualAgreement | packages/crypto/src/peer-handshake.ts:58-150 | among any number of handshakes, if both ends verify and each is the only match for the other, their nonces cross-match |
| HandshakeRuns.TwoHandshakesMatch | packages/crypto/src/peer-handshake.ts:58-150 | with two handshakes and honest keys nothing more is asked: if both verify, their nonces cross-match |
| HandshakeRuns.AtMostOneProof | packages/crypto/src/peer-handshake.ts:122-129 | each side sends at most one proof, and `pending` is never what a verification returns |
| HandshakeSettling.SettledExactly | packages/crypto/src/peer-handshake.ts:58-95 | in every run a handshake is settled exactly when a verification of it has returned, verified or failed, a proof came before its start or before any challenge, or its timeout fired |
| HandshakeSettling.SettlingIsFinal | packages/crypto/src/peer-handshake.ts:58-95 | from each of these on it takes no challenge and starts no signature and no verification; what returns verified later is a call that was waiting at that moment |
| HandshakeSettling.VerificationStartsExactly | packages/crypto/src/peer-handshake.ts:81-135 | one event starts a verification exactly when the handshake is unsettled and a proof comes with both nonces there, or its own signature is done after an earlier proof, which is checked again; always over its own nonce |
| HandshakeSettling.SigningStartsExactly | packages/crypto/src/peer-handshake.ts:73-129 | a signature starts exactly when the first challenge reaches an unsettled handshake, over that challenge |
| HandshakeSettling.StartNeverProves | packages/crypto/src/peer-handshake.ts:58-70 | the proof that a start would begin was always begun before, by the challenge itself |
| HandshakeSettling.SentExactly | packages/crypto/src/peer-handshake.ts:58-135 | over runs a handshake sends its challenge when it starts and its proof when the signature is done, and nothing else |
| HandshakeSettling.TimerExactly | packages/crypto/src/peer-handshake.ts:58-67 | over runs the timer is armed from the start exactly until the handshake settles, or, if it was settled before, until the timeout |
| HandshakeRuns.BothSidesVerify | packages/crypto/src/peer-handshake.ts:58-150 | for any two matching configurations some run lets both sides verify |
| Utf16Text.ScanWellFormed | packages/protocol/src/control.ts:66-77 | the index loop accepts exactly the well-formed UTF-16 texts (section 3.9 of the Unicode Standard) |
| Utf16Text.SplitTextChunks | apps/mobile-web/src/lib/keyboard.ts:58-76 | the loop computes the chunk function and terminates for every maximum |
| Utf16Text.SplitLosesNothingExactly | apps/mobile-web/src/lib/keyboard.ts:58-76 | the chunks concatenate to the text if and only if the maximum is at least 2, or is 1 and no high surrogate comes before the last unit, or the text is empty |
| Utf16Text.ChunksCover | apps/mobile-web/src/lib/keyboard.ts:58-76 | from maximum 2 on every chunk is non-empty and at most the maximum |
| Utf16Text.ChunksWellFormedExactly | apps/mobile-web/src/lib/keyboard.ts:63-70 | all chunks are well formed if and only if the text is |
| Utf16Text.SplitCount | apps/mobile-web/src/lib/keyboard.ts:58-76 | at most ceil(length / (max - 1)) chunks |
| Control.TextBytesBound | packages/protocol/src/control.ts:186-197 | a JSON string takes at most six UTF-8 bytes per code unit |
| Control.ValidFrameFits | packages/protocol/src/control.ts:186-197 | every frame of every type that passes its schema fits 16 KiB, so encoding never throws after a number was taken |
| FrameText.TextBytesExactly | packages/protocol/src/control.ts:186-197 | the bytes counted for typed text are exactly the UTF-8 bytes (section 3 of RFC 3629) of its JSON-escaped form, pairs and lone surrogates included |
| FrameText.FrameBytesExactly | packages/protocol/src/control.ts:186-197 | for every frame that passes its schema the size checked against the bound is exactly the number of UTF-8 bytes of its JSON text |
| Control.ControlSender.Build | packages/protocol/src/control.ts:207-223 | a number is used up exactly when a frame comes out; a frame that fails its schema gives it back |
| Control.FramesAreGapless | packages/protocol/src/control.ts:202-267 | over any list of requests, failing ones included, the counter grows by the frames that came out and a guard in step accepts them all |
| Control.SequenceGuard.Check | packages/protocol/src/frame.ts:72-99 | exactly the next number is accepted, and only then does the guard move |
| InputSender.PrioritizedInputSender.SendMove | apps/mobile-web/src/lib/input-sender.ts:66-73 | the object, its numbering and its channel equal the step function: keeps only the latest move |
| InputSender.PrioritizedInputSender.FlushMove | apps/mobile-web/src/lib/input-sender.ts:76-88 | the object, its numbering and its channel equal the step function: drops a refused move, its number already taken |
| InputSender.PrioritizedInputSender.SendWheel | apps/mobile-web/src/lib/input-sender.ts:91-108 | the object, its numbering and its channel equal the step function: accumulates |
| InputSender.PrioritizedInputSender.FlushWheel | apps/mobile-web/src/lib/input-sender.ts:110-123 | the object, its numbering and its channel equal the step function: a refused delta goes back |
| InputSender.PrioritizedInputSender.EncodeHead | apps/mobile-web/src/lib/input-sender.ts:134-137 | the object, its numbering and its channel equal the step function: a queued frame is built on the first attempt only |
| InputSender.PrioritizedInputSender.TryHead | apps/mobile-web/src/lib/input-sender.ts:133-146 | the object, its numbering and its channel equal the step function: one turn of the loop: dropped, sent, refused or thrown |
| InputSender.PrioritizedInputSender.FlushUrgent | apps/mobile-web/src/lib/input-sender.ts:132-154 | the object, its numbering and its channel equal the step function: the loop drains the queue as far as the channel and the builders allow, then arms the retry |
| InputSender.PrioritizedInputSender.SendUrgent | apps/mobile-web/src/lib/input-sender.ts:126-130 | the object, its numbering and its channel equal the step function: enqueues, drains, and is true exactly when the queue is empty |
| InputSender.PrioritizedInputSender.FlushNow | apps/mobile-web/src/lib/input-sender.ts:157-159 | the object, its numbering and its channel equal the step function: flushes a pending move and leaves its timer |
| InputSender.PrioritizedInputSender.Dispose | apps/mobile-web/src/lib/input-sender.ts:174-188 | the object, its numbering and its channel equal the step function: clears the three timers only |
| InputSender.PrioritizedInputSender.Reset | apps/mobile-web/src/lib/input-sender.ts:166-171 | the object, its numbering and its channel equal the step function: drops everything queued |
| InputSenderRuns.StepKeeps | apps/mobile-web/src/lib/input-sender.ts:66-188 | every event keeps: only the head holds a frame, no number is used twice, urgent input stays in line, burnt numbers stay burnt, wheel deltas balance, and the numbering is in step afterwards if and only if it was and the event does not break it |
| InputSenderRuns.UrgentFifo | apps/mobile-web/src/lib/input-sender.ts:126-154 | without a reset, urgent input accepted plus urgent input waiting is exactly what was enqueued, in order, under any refusals and throwing builders |
| InputSenderRuns.UrgentFramedOnce | apps/mobile-web/src/lib/input-sender.ts:133-146 | the urgent frames built so far stay, unchanged and in order, at the front of those built later |
| InputSenderRuns.InSyncExactly | apps/mobile-web/src/lib/input-sender.ts:66-188 | over a whole run the receiver's numbering stays in step if and only if no coalesced or direct frame was refused or overtook a waiting framed head and no reset dropped one |
| InputSenderRuns.GuardExactly | packages/protocol/src/frame.ts:72-99 | a guard accepts every frame of a sequence exactly when the numbers are 1, 2, 3 and so on |
| InputSenderRuns.ReceiverAcceptsAll | apps/mobile-web/src/lib/input-sender.ts:66-188 | without such an event the receiver accepts every frame the channel took |
| InputSenderRuns.BrokenNumberingStopsTheReceiver | apps/mobile-web/src/lib/input-sender.ts:66-188 | after any event that breaks the numbering, a refusal, an overtaken head or a reset, the guard never passes the last number handed out before it |
| InputSenderRuns.AcceptingChannelReachesTheReceiver | apps/mobile-web/src/lib/input-sender.ts:66-188 | on a channel that accepts everything any mix of direct frames, moves, wheel and urgent input, with resets and throwing builders, is accepted frame by frame |
| InputSenderRuns.UrgentReachesTheReceiver | apps/mobile-web/src/lib/input-sender.ts:126-154 | urgent input alone, under any refusals: numbers 1 to n without a gap, all accepted, and delivered plus queued is what was enqueued |
| InputSenderRuns.DrainThrowsExactly | apps/mobile-web/src/lib/input-sender.ts:132-146 | a drain ends in an exception exactly when some item without a frame fails its schema under the number it would get and every item before it is built and accepted |
| InputSenderRuns.ArmedExactly | apps/mobile-web/src/lib/input-sender.ts:147-153 | when exactly one event leaves a waiting queue without a retry timer: disposal, or a builder that threw while none was armed |
| InputSenderRuns.RetryAlwaysArmed | apps/mobile-web/src/lib/input-sender.ts:147-153 | without disposal and throwing builders a waiting queue always has its retry armed |
| InputSenderRuns.InvalidHeadBlocksTheQueue | apps/mobile-web/src/lib/input-sender.ts:133-137 | a queued body that its schema refuses stays at the head and nothing behind it is ever delivered until a reset |
| InputSenderRuns.WheelBalance | apps/mobile-web/src/lib/input-sender.ts:91-123 | wheel deltas accepted, pending and thrown away add up to the deltas put in, in every run |
| InputSenderRuns.WheelConserved | apps/mobile-web/src/lib/input-sender.ts:91-123 | with no reset and no throwing encoder nothing is lost, under any refusals |
| InputSenderTimers.WheelArmedExactly | apps/mobile-web/src/lib/input-sender.ts:91-123 | when exactly one event leaves a pending wheel delta without its timer: disposal or a refused flush, or when it had none |
| InputSenderTimers.MoveArmedExactly | apps/mobile-web/src/lib/input-sender.ts:66-88 | when exactly one event leaves a pending move without its timer: disposal, or when it had none |
| InputSenderTimers.PendingAlwaysArmed | apps/mobile-web/src/lib/input-sender.ts:66-123 | over runs without disposal a pending move always has its timer, and so has a pending delta if no wheel flush was refused |
| InputSenderTimers.TimersExactly | apps/mobile-web/src/lib/input-sender.ts:66-108 | over runs each timer is armed by its own input and disarmed by firing, disposal and reset, and by nothing else |
| InputSenderTimers.WheelTimerDelivers | apps/mobile-web/src/lib/input-sender.ts:102-123 | on a live session the wheel timer delivers the pending delta exactly when its frame is valid and the channel accepts it; a refused delta stays |
| InputSenderTimers.MoveTimerDelivers | apps/mobile-web/src/lib/input-sender.ts:69-88 | on a live session the move timer and a flush deliver the pending move exactly when its frame is valid and the channel accepts it |
| InputSenderTimers.WheelAtLastPoint | apps/mobile-web/src/lib/input-sender.ts:92-101 | a pending delta, refused or not, stands at the point of the last wheel input |
| InputSenderTimers.WheelFramesStand | apps/mobile-web/src/lib/touch-bridge.ts:47-48 | every accepted wheel frame stands at the point of its accumulation with each delta rounded to the nearest integer, halves up |
| InputSenderTimers.QueueStopsOnlyAtRefusal | apps/mobile-web/src/lib/input-sender.ts:132-146 | unless a builder throws, urgent input and a retry send everything that waits up to the first refusal |
| InputSenderTimers.DroppedIsExact | apps/mobile-web/src/lib/input-sender.ts:57-88 | the dropped count is the number of moves the channel refused |
| InputSenderTimers.EveryAttemptAnswered | apps/mobile-web/src/lib/input-sender.ts:66-154 | the frames that went out are exactly the attempts the channel accepted |
| InputSenderTimers.ResetForgets | apps/mobile-web/src/lib/input-sender.ts:161-171 | after a reset nothing is delivered by any timer until something new is put in |
| InputSenderTimers.NoSessionSendsNothing | apps/mobile-web/src/lib/input-sender.ts:80-146 | without a live session nothing is ever attempted, and what is flushed is dropped |
| InputSenderRuns.WheelFramesRoundedRuns | apps/mobile-web/src/lib/touch-bridge.ts:47-48 | every accepted wheel frame carries the rounded deltas of the accumulation it stands for |
| InputSenderRuns.RoundingBound | apps/mobile-web/src/lib/touch-bridge.ts:47-48 | n wheel frames are together at most n/2 off per axis |
| InputSenderRuns.OnlyLatestMove | apps/mobile-web/src/lib/input-sender.ts:66-74 | whatever happened, the pending move is the last one asked for |
| InputSenderRuns.FlushSendsLatestMove | apps/mobile-web/src/lib/input-sender.ts:76-88 | a flush that sends a move sends the last one asked for |
| InputSenderRuns.SentIsExact | apps/mobile-web/src/lib/input-sender.ts:57-63 | the sent count is the number of moves, wheel deltas and urgent frames the channel accepted |
| TwoQueues.TwoQueuesInStepExactly | apps/mobile-web/src/components/Viewer.tsx:57-93 | two queues over one numbering, as the viewer wires them, stay in step with the receiver over a whole run if and only if no coalesced or direct frame is refused, no reset drops a framed head, and nothing is accepted while either queue holds an older frame |
| TwoQueues.OvertakesExactly | apps/mobile-web/src/lib/input-sender.ts:132-146 | whether a drain gets a frame accepted that is newer than the one the other queue holds is decided by its first two items and the next two answers of the channel |
| TwoQueues.PairReachesTheReceiver | apps/mobile-web/src/components/Viewer.tsx:57-93 | while nothing breaks it, the receiver accepts every frame of both queues |
| TwoQueues.BrokenPairStopsTheReceiver | apps/mobile-web/src/components/Viewer.tsx:57-93 | after a break at either queue the guard stays below the number handed out last, whatever both do later |
| TwoQueues.AcceptingChannelKeepsPair | apps/mobile-web/src/components/Viewer.tsx:57-93 | on a channel that accepts everything both queues together never break the numbering |
| TwoQueues.TwoQueuesOvertake | apps/mobile-web/src/lib/touch-bridge.ts:44-51 | one urgent send at each empty queue stays in step if and only if it is not that the touch is refused and the key then accepted; in that case the receiver rejects the key |
| TwoQueues.QueuesKeepTheirOrder | apps/mobile-web/src/lib/input-sender.ts:126-154 | each queue by itself stays first in first out, loses nothing and builds a frame once, whatever the other queue does |
| TwoQueues.PairWheelConserved | apps/mobile-web/src/lib/input-sender.ts:91-123 | the touch queue conserves its wheel deltas beside any keyboard traffic |
| Gesture.GestureClassifier.SetMode | apps/mobile-web/src/lib/gesture.ts:43-46 | the object and the gesture it gives out equal the step function |
| Gesture.GestureClassifier.ResetGesture | apps/mobile-web/src/lib/gesture.ts:48-52 | the object and the gesture it gives out equal the step function |
| Gesture.GestureClassifier.PointerDown | apps/mobile-web/src/lib/gesture.ts:54-59 | the object and the gesture it gives out equal the step function |
| Gesture.GestureClassifier.MoveTo | apps/mobile-web/src/lib/gesture.ts:61-82 | the object and the gesture it gives out equal the step function |
| Gesture.GestureClassifier.Lift | apps/mobile-web/src/lib/gesture.ts:84-115 | the object and the gesture it gives out equal the step function |
| Gesture.ScrollGesture | apps/mobile-web/src/lib/gesture.ts:54-94 | one scroll gesture of any length: the deltas add up to last sample minus down point, and it never clicks |
| Gesture.ScrollTelescopes | apps/mobile-web/src/lib/gesture.ts:61-71 | in any run the deltas given out add up to the travel of all scroll gestures, ended or under way |
| Gesture.PointerGesture | apps/mobile-web/src/lib/gesture.ts:61-115 | nothing before the first sample outside the drag circle, a drag from it on, and at the end a drag end or a tap exactly when short and close; a drag never clicks |
| Gesture.DoubleTaps | apps/mobile-web/src/lib/gesture.ts:99-112 | a tap counts two exactly when the last tap before it was a single one, at most 300 ms ago and 40 units away; so doubles are never neighbours |
| Gesture.WithinIsDistance | apps/mobile-web/src/lib/gesture.ts:117-119 | the comparison of squares is the comparison of the Euclidean distance with the slop |
| Gesture.NoGestureWithoutDown | apps/mobile-web/src/lib/gesture.ts:48-94 | without a finger on the glass nothing is recognized, so a reset or a change of mode ends a gesture |
| Gesture.ModeAndDragExactly | apps/mobile-web/src/lib/gesture.ts:43-98 | over runs the mode is the one chosen last, and no drag outlives its finger or is under way in scroll mode |
| TouchBridge.TouchBridge.SetMode | apps/mobile-web/src/lib/touch-bridge.ts:54-56 | bridge and sender equal their step functions: the mode change resets the gesture |
| TouchBridge.TouchBridge.SetChannelOpen | apps/mobile-web/src/lib/touch-bridge.ts:59-66 | bridge and sender equal their step functions: a closed channel resets gesture and queues |
| TouchBridge.TouchBridge.OnCancel | apps/mobile-web/src/lib/touch-bridge.ts:73 | bridge and sender equal their step functions: a cancelled pointer resets the gesture, whether or not the channel is open |
| TouchBridge.TouchBridge.OnDown | apps/mobile-web/src/lib/touch-bridge.ts:105-116 | bridge and sender equal their step functions: a press outside the video resets the gesture |
| TouchBridge.TouchBridge.OnMove | apps/mobile-web/src/lib/touch-bridge.ts:118-140 | bridge and sender equal their step functions: drags become moves and scrolls become scaled wheel deltas |
| TouchBridge.TouchBridge.OnUp | apps/mobile-web/src/lib/touch-bridge.ts:142-159 | bridge and sender equal their step functions: a tap flushes the move, then sends down and up |
| TouchBridgeRuns.ScrollConserved | apps/mobile-web/src/lib/touch-bridge.ts:118-135 | for any interleaving of touches, timers, refusals and keyboard traffic, the bridge's wheel deltas accepted plus pending are wheelScale times the travel of all scroll gestures |
| TouchBridgeRuns.BridgePointsAreUnit | apps/mobile-web/src/lib/touch-bridge.ts:91-103 | the points the classifier gets from the bridge are in the unit square |
| TouchBridgeRuns.EveryQuickSwipeClicks | apps/mobile-web/src/lib/gesture.ts:24-29 | over such points a pointer gesture of any length is a click exactly when it took at most 300 ms, and never a drag: the slops are pixels |
| TouchBridgeRuns.BridgeNeverMovesThePointer | apps/mobile-web/src/lib/touch-bridge.ts:124-128 | so over whole runs the bridge never sends a pointer move |
| TouchBridgeRuns.ClosedBridgeIsSilent | apps/mobile-web/src/lib/touch-bridge.ts:59-66 | while its channel is closed a bridge sends nothing, whatever touches come |
| TouchBridgeRuns.ActiveExactly | apps/mobile-web/src/lib/touch-bridge.ts:59-66 | the bridge is active exactly when it was last told that the channel is open |
| TouchBridgeRuns.EndsTheGesture | apps/mobile-web/src/lib/touch-bridge.ts:54-116 | a press outside the video, a cancelled pointer and a change of mode end the gesture and send nothing |
| TouchBridgeRuns.NothingWithoutPress | apps/mobile-web/src/lib/touch-bridge.ts:105-159 | after that nothing is sent until the next press on the video |
| TouchBridgeRuns.DragFollowsTheFinger | apps/mobile-web/src/lib/touch-bridge.ts:118-128 | in pointer mode a sample sends a move to its own place exactly when the finger drags or leaves the drag circle |
| TouchBridgeRuns.ScrollFollowsTheFinger | apps/mobile-web/src/lib/touch-bridge.ts:129-135 | in scroll mode a sample sends the scaled way from the sample before, at its own place, or nothing |
| TapToPage.TapReachesTheTab | apps/mobile-web/src/lib/touch-bridge.ts:142-159 | on an accepting channel a tap makes the adapter press and then release the left button at one point, after at most the one pending move |
| TapToPage.TapClicksWhereTouched | apps/mobile-web/src/lib/touch-bridge.ts:142-159 | end to end: that point is the place of the page the lifted finger points at, a hundredth of a pixel off at most |
| VideoRect.ContentRectFits | apps/mobile-web/src/lib/video-rect.ts:24-46 | the rectangle exists exactly for positive sizes and is inside the element, centred and in the video's ratio |
| VideoRect.ContentRectIsLargest | apps/mobile-web/src/lib/video-rect.ts:24-46 | no rectangle of that ratio inside the element is larger |
| VideoRect.NormalizeUndoesPlace | apps/mobile-web/src/lib/video-rect.ts:52-65 | normalizing the place where a unit point is drawn gives the point back |
| VideoRect.AcceptedExactly | apps/mobile-web/src/lib/video-rect.ts:52-69 | a touch counts exactly when it is on the content or within a thousandth of its extent, and then lands in the unit square |
| VideoRect.ClampCssError | apps/extension/src/cdp-input.ts:226-228 | the clamp moves a coordinate by at most a hundredth and keeps it in the page |
| VideoRect.TouchLandsOnThePage | apps/mobile-web/src/lib/video-rect.ts:72-77 | every accepted touch ends inside the page, at most a hundredth of a pixel from where the finger points: as far along the page as it is along the video content |
| InputService.AcceptFrame | packages/protocol/src/control.ts:271-287 | size, schema, session and only then the guard; the guard moves exactly on acceptance |
| InputService.InputService.Begin | apps/extension/src/input-service.ts:48-52 | the object equals its step function: a fresh guard, not attached |
| InputService.InputService.AttachDone | apps/extension/src/input-service.ts:62-66 | the object equals its step function: attached after the adapter |
| InputService.InputService.StopCalled | apps/extension/src/input-service.ts:69-76 | the object equals its step function: up to the await of the detach |
| InputService.InputService.DetachDone | apps/extension/src/input-service.ts:69-76 | the object equals its step function: disarmed |
| InputService.InputService.BuildLaptopFrame | apps/extension/src/input-service.ts:90-103 | the object equals its step function: the next laptop number, with an empty session id when none is armed |
| InputService.InputService.HandleFrame | apps/extension/src/input-service.ts:129-230 | the object equals its step function: outcome and guard for every frame, phase and target |
| InputService.InputService.Dispatch | apps/extension/src/input-service.ts:160-213 | the object equals its step function: the gates in order and the frame types that act |
| InputServiceRuns.RunKeepsInv | apps/extension/src/input-service.ts:48-126 | in every run the guard's numbers are 1 to its last for the frames accepted since arming, calls are ordered, and laptop frames are numbered without gap across sessions |
| InputServiceRuns.ActsExactly | apps/extension/src/input-service.ts:129-211 | an event calls the adapter, once, if and only if its frame fits, passes its schema, names the armed session, is exactly next, is input, and phase, target and attachment allow it |
| InputServiceRuns.CallsAreGated | apps/extension/src/input-service.ts:129-211 | every adapter call of a run goes back to an event that met all those conditions in the state it found |
| InputServiceRuns.NoFrameActsTwice | apps/extension/src/input-service.ts:129-211 | adapter calls are strictly ordered by arming and number |
| InputServiceRuns.GuardCountsAccepted | packages/protocol/src/frame.ts:72-99 | the guard's last value is the number of frames accepted since begin, those refused for phase included |
| InputServiceArming.ArmingExactly | apps/extension/src/input-service.ts:48-103 | in every run the armed session, the attachment and every laptop frame, with number and session, are what the events say |
| InputServiceArming.StoppedIsSilent | apps/extension/src/input-service.ts:68-76 | from a completed stop until the next begin the guard is absent, every frame is refused as not attached and changes nothing, and the adapter is not called |
| InputServiceArming.UnattachedOnlyAuthenticates | apps/extension/src/input-service.ts:129-185 | from a begin until its attach only peer authentication gets past the gates, and the adapter is not called |
| InputServiceArming.AnswersExactly | apps/extension/src/input-service.ts:129-230 | every answer to a frame has its exact condition, and the guard moves exactly for a frame that passes, whatever the later gates say |
| InputServiceArming.ReplayedExactly | packages/protocol/src/frame.ts:72-99 | in every run a valid frame of the armed session is refused as a replay exactly when its number was accepted since the begin |
| InputServiceArming.MalformedExactly | packages/protocol/src/control.ts:271-287 | a frame is told too large exactly when it is, before anything else is looked at |
| InputServiceRuns.FramesActInOrder | apps/extension/src/input-service.ts:129-211 | a gapless stretch of frames acts once each and in order |
| InputServiceRuns.PhoneInputActs | apps/extension/src/input-service.ts:129-211 | from the phone to the adapter: unless an event breaks the phone's numbering, every input frame its channel takes acts, once and in order |
| InputServiceRuns.PairInputActs | apps/extension/src/input-service.ts:129-211 | the same for both queues of the viewer together: unless either breaks the common numbering, every input frame of both acts, once and in the order sent |
| KeyboardBridge.TypedTextIsValid | apps/mobile-web/src/lib/keyboard-bridge.ts:112-118 | every chunk of a well-formed text passes its schema |
| KeyboardBridge.TouchesAreWordless | apps/mobile-web/src/lib/touch-bridge.ts:118-159 | nothing a gesture sends carries text |
| KeyboardBridge.TypedTextArrives | apps/mobile-web/src/lib/keyboard-bridge.ts:112-118 | beside any touch traffic that does not break the common numbering, once the keyboard's queue has drained, the text inserted into the tab is the text typed |
| KeyboardBridge.TypedTextArrivesAlone | apps/mobile-web/src/lib/keyboard-bridge.ts:112-118 | without touch traffic that holds under any refusals, with no condition on the numbering |
| RateLimit.FrameRateLimiter.Allow | apps/signaling/src/rate-limit.ts:14-23 | the pruning loop and the decision equal the step function |
| RateLimit.QueueDecidesAsHistory | apps/signaling/src/rate-limit.ts:14-23 | with a clock that never runs back a frame is allowed exactly when the full history has fewer than the maximum in the closed window |
| RateLimit.SlidingWindowBound | apps/signaling/src/rate-limit.ts:14-23 | no closed interval as long as the window holds more than the maximum of allowed frames |
| RateLimit.DeviceRateLimiter.Allow | apps/signaling/src/rate-limit.ts:41-50 | table and decision equal the step function |
| RateLimit.KeysBounded | apps/signaling/src/rate-limit.ts:41-50 | the table never holds more than maxKeys devices (one, when maxKeys is 0) |
| RateLimit.RefusedOnlyAfterAWindowful | apps/signaling/src/rate-limit.ts:41-50 | in every run, with clears or without, a device is refused only after a window's worth of grants within less than the window |
| RateLimit.FixedWindowBound | apps/signaling/src/rate-limit.ts:41-50 | without a clear a device is allowed at most twice a window's worth in any half-open interval as long as the window |
| RateLimit.ClearsExactly | apps/signaling/src/rate-limit.ts:43-45 | with at most maxKeys devices the table is cleared exactly by a device reopening its own expired window while the table is full; with fewer devices never |
| RateLimit.FixedWindowBoundForFewKeys | apps/signaling/src/rate-limit.ts:41-50 | so with fewer than maxKeys devices the bound of twice a window's worth holds in every run |
| RateLimit.FullTableBreaksTheBound | apps/signaling/src/rate-limit.ts:43-45 | with exactly maxKeys devices, for every maxKeys from 3 on, a run grants one device three windows' worth less one within one interval |
| RateLimit.SpreadNeverRefused | apps/signaling/src/rate-limit.ts:41-50 | a run in which any maxKeys + 1 consecutive requests come from different devices is never refused, at any rate |
| RateLimit.ClearingForgets | apps/signaling/src/rate-limit.ts:41-50 | for every maxKeys, maxKeys + 1 devices taking turns at one instant are each granted n times in n rounds, for every n |

## Left out

- Transport, HTTP endpoints, logging, environment parsing and the SQLite registry: input and output only. Sockets are open, frame and close steps and an output trace.
- Error texts, and which reason an error frame carries outside production; the codes are modelled.
- A malformed signaling frame is one event with its error code: the decoding of signaling frames is not part of this model.
- The stale sweep is not an event of the runs; its effect is stated for any state, and for a short run that ends in one.
- The router's pairing and session records are values in their tables. The code changes them in place and stores them again right after, so aliasing between a returned record and the table is not captured.
- WebCrypto, base64 and zod: ideal functions and schema predicates. A coordinate is its value and the length of its decimal text.
- The pairing manager, the QR payload, session state, teardown, reconnect backoff and the list of paired devices: easy members, or the same shape as the handshake.
- Storage and message passing around the input service (background.ts): only the phase, the target tab and the start of a session come in as parameters.
- The order of debugger commands inside the CDP adapter: order is stated at the adapter calls.
- What the adapter's promise ends with, and the teardown after a protocol violation, are not part of this model.
- The keyboard bridge beyond its text path: key mapping, composition events, and the loop over chunks, which an exception from a builder would cut short.
- More than two queues: a bridge that the viewer replaces on a mode change can leave a third queue with a pending retry. The runs of `input_sender_runs` are those of a queue alone; `two_queues` says what holds of two together.
- Floating-point rounding: geometry, gesture distances and wheel deltas are over the reals.
- One clock reading stands for all frames that a single touch or flush builds.
