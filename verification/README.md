# A verified model of the Agentknock client

Agentknock is a client that asks a paired device, through an untrusted relay, for permission to use secrets.
This project models the parts of it where something hard is decided, and proves what they are for.

**The relay exchange** (`Schedule`, `Retry`, `RelayHistory`, `RelayExchange`, `RelayTheorems`). An at-least-once client that
sends a request, resends or resumes after every disconnect, acknowledges the response and hands off a completion under a
bounded retry policy. A `Schedule.Run` is an arbitrary schedule of everything outside the client: connection outcomes,
write failures, relay frames, pings, close codes, elapsed time, and cancellation at every await. The operations of `World`
record what happened at each await, and nothing else and nothing less (`World.Truthful`), so the client's contracts are
about everything the relay delivered, everything that was really written, and the clock. `RelayHistory.Allowed` says what a
client may do: it writes exactly the frame that `Due` names and listens only when none is due; what costs it a connection it
counts next; and then it sleeps as long as it is asked to and goes on, or gives up, as the retry policy says. Every method
keeps the history legal, and `RelayTheorems` says what all legal histories have in common. Termination of the loops is
proved by the measure of awaits until the relay falls quiet and failures left: the relay may deliver any finite number of
frames.

**The approval exchange and the pairing exchanges** (`Crypto`, `ApprovalExchange`, `PairingExchange`). The session order,
the relay exchange and the pairing file composed: what the caller gets, what the device is told and what happens to the
file never disagree.

**The pairing file and key rotation** (`PairingFile`, `PairingSystem`, `PairingTheorems`). The file is a JSON object with
arbitrary further members. Each lock-held section is one step. Any number of processes interleave their steps with
snapshots, lost, repeated and delayed messages, and a device that adopts only the one-step successor of its current key.
Keys are lineages: a fresh secret and the rotation keys derived into it since.

**The SSH agent multiplexer** (`SshWire`, `SshIdentities`, `SshAuthentication`, `SshAgent`, `AgentConnection`). The parsers
are proved to accept exactly the printed forms: section 5 of RFC 4251, section 7 of RFC 4252 with the OpenSSH host-bound
variant, and the identities answer of RFC 9987. A connection records each client packet as a turn; the theorems are about
all runs of turns.

**Environment delivery** (`SecretOptions`, `SecretDelivery`, `RunOptions`). A pass over approved secrets refines an
order-free relation, and the command line's validation implies the library's.

**Changed paths and the pairing display** (`ChangedPaths`, `PairingSas`).

A future that is dropped is modelled at every await as the outcome `Dropped`. Dropping it while a frame is being written
leaves an open socket about whose last frame nothing is known, so histories record such a write as cut short. This matters:
`RelayTheorems.CutReplayHappens` is a history in which cancellation cuts the replay of a completion short and a later
handoff listens on a socket that doesn't carry it, so "the completion is on the socket" holds exactly when no such write
was cut short, and that is what `RelayTheorems.CompletionIsOnTheSocket` states over the events. Likewise
`RelayTheorems.CutRequestHappens` is a run in which the relay accepts a request that was never marked sent, and
`RelayTheorems.MessagesInOrder` says exactly when that happens.

## Model

| member | source | states |
|---|---|---|
| RelayHistory.StepKeepsCoherence | src/websocket.rs:192-520 | Each step keeps the facts of an exchange coherent: a sent completion implies an accepted request, an acknowledgement owed implies an open socket, and no text is used before it is fixed |
| RelayHistory.LegalIsCoherent | src/websocket.rs:192-520 | Every reachable moment of every exchange is coherent, so no `expect` on the socket, request or completion can fire |
| RelayHistory.ExtensionPersists | src/websocket.rs:192-391 | The texts of request and completion, acceptance, and the first response never change once known, over any further events |
| RelayTheorems.EveryConnection | src/websocket.rs:409-520 | Every connection transcript of every run has the required shape |
| RelayTheorems.StepKeepsTranscripts | src/websocket.rs:409-520 | One event keeps every transcript in shape, and the last one equal to the open socket |
| RelayTheorems.ConnectionsBeginRight | src/websocket.rs:409-520 | A connection begins with the request exactly when no acceptance had been seen, with resume otherwise; all copies of the request are one text; at most one copy of the one completion text per connection |
| RelayTheorems.MessagesInOrder | src/websocket.rs:302-391 | A sent completion or a heard response implies an acknowledged request; a request is marked sent if and only if on some connection opened before the acceptance the first write was neither broken nor cut short |
| RelayTheorems.CutRequestHappens | src/websocket.rs:192-391 | A concrete run in which the request is cut short, accepted, and the completion sent, without the request ever being marked sent |
| RelayTheorems.CutRequestIsARun | src/websocket.rs:192-391 | That history is a run: a schedule under which everything in it happens when it says |
| RelayTheorems.CompletionReadsOff | src/websocket.rs:358-361 | Whether the completion was sent, and whether a replay of it was cut short on the open socket, is exactly what the events say |
| RelayTheorems.CompletionIsOnTheSocket | src/websocket.rs:322-390 | While listening after the completion was sent once, it is on this very socket if and only if no resume and no renewed copy of it was cut short there |
| RelayTheorems.HandedOnceHappens | src/websocket.rs:302-391 | The run up to a first handoff is legal, with its exact state |
| RelayTheorems.CutReplayHappens | src/websocket.rs:285-391 | A concrete run in which a dropped replay leaves the next handoff listening on a socket without the completion |
| RelayTheorems.CutReplayIsARun | src/websocket.rs:285-391 | That history is a run too, with its losses, sleep and clock |
| RelayTheorems.ResponseIsAcknowledgedFirst | src/websocket.rs:232-243 | After a response, the next event of the call is the acknowledgement, its failure, or its being cut short |
| RelayTheorems.FirstPayloadIsKept | src/websocket.rs:192-261 | Whatever duplicates or different payloads follow, over any reconnects, the response kept is the first payload heard |
| RelayTheorems.NothingIsMissed | src/websocket.rs:522-601 | At every await where the client listens, what the relay delivers there is what the history says, unless the future was dropped or the call ended |
| RelayTheorems.PayloadsAreDelivered | src/websocket.rs:192-261 | The responses heard are, in order, exactly those that the relay delivered to the listening client by the schedule, so the response kept is the first of them |
| RelayTheorems.CallIsUndropped | src/websocket.rs:192-391 | A call that ends otherwise than by being cut off was dropped at none of its awaits |
| RelayTheorems.StreakReadsOff | src/websocket.rs:748-762 | The failures counted are exactly those since the call began or the relay was last heard, and the first of them sets the deadline |
| RelayTheorems.LossIsCountedNext | src/websocket.rs:424-520 | A failed attempt, a broken write and a lost socket are each counted before anything else happens |
| RelayTheorems.FailureIsRetriedOrNot | src/websocket.rs:764-777 | After a failure the call is over exactly if the limit or the deadline is reached; otherwise it sleeps the delay that the loss asks for, but not past the deadline |
| RelayTheorems.GivesUpForCause | src/websocket.rs:764-777 | Retries are exhausted only at the limit of consecutive failures or when the first of them is the timeout ago |
| RelayTheorems.RetriesStartInTime | src/websocket.rs:424-476 | By the clock, every retry starts after a sleep, below the limit of failures and strictly before the deadline |
| RelayTheorems.LossesAreCounted | src/websocket.rs:424-520 | Over every run the failures counted are the failed attempts, broken writes and lost sockets, one for each |
| RelayTheorems.FailuresAreBounded | src/websocket.rs:731-778 | At most `maximum_failures` failed attempts, broken writes and lost sockets between two valid relay frames, summed over every run and any number of calls |
| RelayTheorems.AttemptsFollowFailures | src/websocket.rs:424-476 | Opening a connection never refreshes the budget: each attempt after the first of a call, whether it succeeds or not, is paid for by a failure |
| RelayTheorems.AttemptsAreBounded | src/websocket.rs:424-476 | The attempts to connect in a run are bounded by its calls and the valid relay traffic alone |
| RelayTheorems.AttemptMeans | src/websocket.rs:453-473 | A connection attempt ends the exchange exactly for a status below 500, with 403 a suspension for a client connection, and for a proxy status outside 500 to 599 |
| RelayTheorems.ArrivalMeans | src/websocket.rs:540-633 | Every arrival by its content: a frame for another client or request, an error that isn't to be retried, an inactive exchange, nonsense and the close codes 4002 and 4003 end the exchange, each with its error; a frame of this exchange is heard; anything else costs the socket |
| RelayTheorems.DelayMeans | src/websocket.rs:574-593 | A retryable error is waited out as long as it asks for, or a second; any other loss as long as the policy says |
| RelayTheorems.AcceptedMeans | src/websocket.rs:218-257 | A request is taken for accepted exactly once an acknowledgement or receipt of it, a response, or, while it is made, a snapshot that reports it accepted or delivered has been heard |
| RelayTheorems.AcceptedWasTaken | src/websocket.rs:218-257 | With a relay that tells the truth about what it has, an accepted request has been taken |
| Retry.RetryState.Failed | src/websocket.rs:759-777 | Counts the failure; goes on exactly after one sleep that ended before first failure plus timeout, a sleep as long as the delay but never planned past that time; gives up at once at the limit or that time |
| Retry.RetryState.Succeeded | src/websocket.rs:748-757 | A valid frame forgets the failures |
| RelayExchange.RelayExchange.Fail | src/websocket.rs:764-777 | What was just lost is counted with the delay it asks for, and the call fails only at the limit of failures or the deadline |
| RelayExchange.RelayExchange.Attempt | src/websocket.rs:429-475 | One connection attempt does exactly what the world lets it: it opens, fails fatally by its status and connection kind, or costs a failure |
| RelayExchange.RelayExchange.Unconnected | src/websocket.rs:453-473 | A failed attempt is fatal exactly by its status and the connection kind, and is counted otherwise |
| RelayExchange.RelayExchange.EnsureConnected | src/websocket.rs:424-476 | Ends with a socket, with a fatal status and exactly its error, or, only at the limit or the deadline, with exhausted retries; every failed attempt is counted, and nothing but the socket and the retries changes |
| RelayExchange.RelayExchange.Connect | src/websocket.rs:409-422 | A new socket carries exactly the opening frame, the request before acceptance and resume after it |
| RelayExchange.RelayExchange.OpenWith | src/websocket.rs:411-419 | The opening frame is written, or the broken write is counted |
| RelayExchange.RelayExchange.SendText | src/websocket.rs:511-520 | Writes the one frame that is due exactly if the world lets it; otherwise counts the broken write and closes the socket |
| RelayExchange.RelayExchange.SendRequest | src/websocket.rs:478-483 | The fixed request text is written and the request marked sent, exactly if the world lets that write succeed |
| RelayExchange.RelayExchange.SendCompletion | src/websocket.rs:485-490 | The fixed completion text is written and the completion marked sent, exactly if the world lets that write succeed |
| RelayExchange.RelayExchange.SendAck | src/websocket.rs:501-509 | An acknowledgement is written only when one is due, and exactly if the world lets it |
| RelayExchange.RelayExchange.Disconnect | src/websocket.rs:603-611 | The socket is given up and one failure counted |
| RelayExchange.RelayExchange.Accept | src/websocket.rs:571-633 | The frame that arrived is heard if and only if it is of this exchange, isn't an error and isn't inactive; a fatal one ends the exchange with its exact error, and a retryable error costs a failure and its own delay |
| RelayExchange.RelayExchange.Take | src/websocket.rs:540-600 | Every kind of arrival has its exact outcome: a fatal one, such as a suspension code, ends the exchange with its error, and any other loss costs a failure |
| RelayExchange.RelayExchange.Read | src/websocket.rs:522-565 | Yields what the relay sent past pings and pongs, which only reset the failures |
| RelayExchange.RelayExchange.Receive | src/websocket.rs:522-601 | Listening yields the frame the relay delivered, a counted disconnect or the exact fatal error, and brings the end of the relay frames or of the retries nearer |
| RelayExchange.RelayExchange.React | src/websocket.rs:218-259 | The reaction to each frame while requesting keeps the first response, acknowledges responses and returns only when settled |
| RelayExchange.RelayExchange.ReactToResponse | src/websocket.rs:232-243 | The first response heard is kept, each is acknowledged, and the call returns exactly when that acknowledgement was written |
| RelayExchange.RelayExchange.ReactToState | src/websocket.rs:244-257 | A snapshot confirms the request, settles the response or ends the exchange, each exactly when it says so |
| RelayExchange.RelayExchange.RequestRound | src/websocket.rs:211-260 | A round that goes on brings the end of the relay frames or of the retries nearer |
| RelayExchange.RelayExchange.BeginRequest | src/websocket.rs:202-207 | A second request or one too large is refused without effect; otherwise the text is fixed |
| RelayExchange.NewMessageMeans | src/websocket.rs:718-728 | A message of more than 256 KiB is refused with its size |
| RelayExchange.RelayExchange.Request | src/websocket.rs:192-261 | Returns only the decoding of the first response payload, and only after acknowledging it or hearing that it was delivered; the payload is the first that the relay delivered; fails only where the retries ran out at the limit or the deadline, on a fatal status or frame just seen, or for want of a response that decodes; one call under the normal policy, which ends for every relay |
| RelayExchange.AnsweredMeans | src/websocket.rs:232-261 | A request returns the response in the first payload, or the code and text of the error in it if there is no response, once that payload is acknowledged or reported delivered; it reports a missing response only on a snapshot |
| RelayExchange.RelayExchange.Decode | src/websocket.rs:666-675 | A payload that parses as a response is one; an unauthenticated error is reported only otherwise |
| RelayExchange.RelayExchange.NoteAcceptance | src/websocket.rs:331-354 | The frames that count as evidence of acceptance are noted, and a repeated response is acknowledged |
| RelayExchange.RelayExchange.AwaitAcceptance | src/websocket.rs:327-356 | Before acceptance a handoff only waits for evidence of it |
| RelayExchange.RelayExchange.Replay | src/websocket.rs:358-361 | Afterwards the completion is on this socket |
| RelayExchange.RelayExchange.NoteConfirmation | src/websocket.rs:366-389 | A frame confirms the completion exactly if it acknowledges it or reports it accepted, delivered or discarded; a repeated response is acknowledged |
| RelayExchange.RelayExchange.AwaitConfirmation | src/websocket.rs:363-389 | Done if and only if the relay acknowledged the completion or reports it accepted, delivered or discarded |
| RelayExchange.HandedOffMeans | src/websocket.rs:366-389 | A handoff is done exactly when the relay has just acknowledged the completion, or reported it other than absent, after it was sent |
| RelayExchange.HandedOffWasTaken | src/websocket.rs:366-389 | With a relay that reports the completion absent exactly until it has taken it, a completion handed off has been taken |
| RelayExchange.RelayExchange.CompletionRound | src/websocket.rs:322-390 | Done exactly on such a confirmation, read off the last event; a round that goes on brings the end of the relay frames or of the retries nearer |
| RelayExchange.RelayExchange.BeginCompletion | src/websocket.rs:310-319 | The first handoff fixes the completion text; later ones keep it whatever they pass |
| RelayExchange.RelayExchange.CompleteWithPolicy | src/websocket.rs:302-391 | Returns Ok if and only if the last event is the relay's acknowledgement of the completion or a snapshot that doesn't report it absent; fails only where the retries ran out at the limit or the deadline or on a fatal status or frame just seen; one call under the policy, which ends for every relay |
| RelayExchange.RelayExchange.Complete | src/websocket.rs:263-269 | The same under the normal policy |
| RelayExchange.RelayExchange.CompleteBriefly | src/websocket.rs:271-281 | The same under the brief policy; a timeout is reported only where it dropped the handoff, and a completion that is not refused is really tried |
| RelayExchange.RelayExchange.CompleteOrCancel | src/websocket.rs:285-300 | It reports cancellation if and only if an await was dropped, already at its start or later; then, and only then, a brief handoff of the same completion was begun after that and really tried; otherwise it is done, or fails for the relay's own reason, under the normal policy |
| RelayExchange.RelayExchange.CompleteUnlessCancelled | src/websocket.rs:293-297 | Cancellation is looked at first; the handoff is dropped if and only if an await was |
| RelayExchange.RelayExchange.Shorten | src/websocket.rs:298-299 | After cancellation a brief handoff follows, whose outcome doesn't matter |
| Crypto.Session.SealRequest | src/crypto.rs:62-73 | Seals once, as the first message of the context, and otherwise fails without effect |
| Crypto.Session.SealCompletion | src/crypto.rs:97-105 | Seals once and only after the request, as the second message of the context |
| ApprovalExchange.SealRequest | src/exchange.rs:16-27 | The request is sealed under the pairing's key and carries its rotation key |
| ApprovalExchange.SealAborted | src/protocol.rs:73-81 | An abort is sealed as the exchange's one completion |
| ApprovalExchange.Cancel | src/exchange.rs:64-74 | A cancelled request is aborted on the device, by a brief handoff that is really tried, exactly if it was sent |
| ApprovalExchange.Abandon | src/exchange.rs:77-96 | A failed relay exchange is aborted with the reason for that error by a brief handoff that is really tried; cancellation, pending or seen during that, is reported exactly if it happened, and another brief handoff follows it |
| ApprovalExchange.Decide | src/exchange.rs:98-128 | The judgement is exactly that of the opened reply, and the file loses the confirmed rotation key exactly when the response authenticated; if that fails, nothing is decided |
| ApprovalExchange.Conclude | src/exchange.rs:108-143 | The completion carries the outcome of the judgement and is really handed off, briefly after a device error or cancellation; unless it is a device error, the result is changed exactly where cancellation happened, and the completion never |
| ApprovalExchange.HandBack | src/exchange.rs:136-143 | A judgement is returned only once its outcome is handed off under the normal policy; that fails only for the relay's own reason, and gives way to cancellation wherever that happens, with a brief handoff after it |
| ApprovalExchange.Ask | src/exchange.rs:61-76 | The request ends dismissed exactly where it was cancelled, without being made if that was pending, and otherwise broken for the relay's own reason or answered |
| ApprovalExchange.Respond | src/exchange.rs:98-143 | The first response heard decides the judgement, the file and the completion |
| ApprovalExchange.AuthenticatedMeans | src/exchange.rs:98-103 | A reply is authenticated only in the very context its response was sealed in |
| ApprovalExchange.Prepare | src/exchange.rs:56-58 | The pairing is read after a rotation that is made exactly if it is due |
| ApprovalExchange.Negotiate | src/exchange.rs:61-144 | Cancellation takes effect wherever it is seen: pending, it dismisses a request that isn't made; after the response, it changes the result unless that is a device error |
| ApprovalExchange.Settle | src/exchange.rs:61-143 | Result, judgement, completion and file agree however the request ended, and only a judged response changes the file |
| ApprovalExchange.Exchange | src/exchange.rs:47-144 | From its first await to its last it is one exchange, which seals the request once and at most one completion; it never hits the message order error, gives up exactly where it was cancelled or for the relay's own reason, really tries to tell the device however it ends, and leaves the file exactly as the rotation and the confirmed rotation key say |
| ApprovalExchange.TimesOutForCause | src/exchange.rs:61-96 | An exchange that ends in exhausted retries had exactly ten failures in a row, or fewer for two minutes since the first of them |
| ApprovalExchange.BriefIsBrief | src/websocket.rs:38-43 | A brief handoff gives up after two failures in a row, or five seconds after the first |
| ApprovalExchange.ReplyDecides | src/exchange.rs:108-143 | What each reply comes to: a validated approval is returned and told as approved, a denial is returned and told as that denial, a device error is returned in any case and told as the client's, and anything else, an unopened response included, is invalid |
| ApprovalExchange.ReplyDecidesFile | src/exchange.rs:98-107 | An authenticated reply to a request with a rotation key takes exactly that key out of the file as found then; nothing else changes the file |
| ApprovalExchange.LostPairingDecides | src/exchange.rs:98-107 | If the pairing is gone when its rotation is to be cleared, that is the result and what the device is told |
| ApprovalExchange.FailureIsTold | src/exchange.rs:147-155 | A failed relay exchange is told as timed out, as the client's error, or as an invalid response, by its error |
| ApprovalExchange.ResultAgreesWithOutcome | src/exchange.rs:108-143 | A value is returned only after an authenticated approval that validated and an approved completion handed off; a denial only with the same denial handed back; an approved completion only after an authenticated approval |
| PairingExchange.RejectDeviceError | src/exchange.rs:30-42 | An authenticated device error is answered with an abort that names it, in a brief handoff that is really tried |
| PairingExchange.Consult | src/pairing.rs:187-210 | Succeeds only if the first response heard opens in the session and agrees; otherwise the error is cancellation, the relay's, or the device's exact verdict, and the device is told at most of its own error |
| PairingExchange.Activate | src/pairing.rs:213-220 | The attempt is activated, or the file stays as found, and only an activation is handed off |
| PairingExchange.Finalize | src/pairing.rs:187-220 | The file is activated only if the device agrees, and cancellation before that leaves it as found |
| PairingExchange.FinishPairing | src/pairing.rs:175-221 | One exchange from its first await to its last; the file is activated if and only if the device answers with an authenticated acceptance, for the attempt of the request, and is left exactly as found otherwise; a refusal is reported as one; the device hears of an activation only after it, and cancellation later neither undoes it nor is reported as a failure |
| PairingExchange.FinishReplyDecides | src/pairing.rs:200-214 | Only an authenticated acceptance is agreement to a finish; a refusal, a device error, another reply and an unopened response each have their result and tell the device at most of its own error |
| PairingExchange.FinishChanges | src/pairing.rs:211-220 | Agreement makes the pending attempt of the request active, or leaves a file that doesn't hold it, with the reason; only the first is told |
| PairingExchange.HandOff | src/pairing.rs:215-220 | The activation is handed off under the normal policy, or fails for the relay's own reason; cancellation shortens that to a brief handoff and is a success |
| PairingExchange.Delete | src/pairing.rs:286-292 | The pairing is deleted, or the file stays as found, and only a deletion is told |
| PairingExchange.Dissolve | src/pairing.rs:282-332 | The file is deleted only if the device agrees, and cancellation before that leaves it as found |
| PairingExchange.RemovePairing | src/pairing.rs:267-332 | One exchange from its first await to its last; the file is deleted if and only if the device answers with an authenticated empty message, for the pairing of the request, and is left exactly as found otherwise; the device hears of it only after that, and the result is success exactly if the removal was made |
| PairingExchange.RemoveReplyDecides | src/pairing.rs:320-332 | Only an authenticated empty message is agreement to a removal; every other reply has its result |
| PairingExchange.RemoveChanges | src/pairing.rs:286-292 | Agreement deletes the active pairing of the request, or leaves a file that holds another, with the reason; a file that is gone counts as removed |
| PairingExchange.NotifyRemoval | src/pairing.rs:288-292 | The handoff of a removal is really tried unless it is cancelled at once, and not begun if that is already pending |
| PairingFile.PairingFile.WritePending | src/config.rs:300-318 | A pending pairing is written only where no file is found, and an existing file stays as found |
| PairingFile.PairingFile.FinishPending | src/config.rs:391-403 | Activates exactly the attempt it names |
| PairingFile.PairingFile.AbortPending | src/config.rs:405-413 | Deletes a pending pairing only if it is the attempt it names, if it names one |
| PairingFile.PairingFile.Remove | src/config.rs:415-429 | Deletes whatever is there |
| PairingFile.PairingFile.RemoveActive | src/config.rs:431-453 | Deletes only the active pairing it names, and succeeds when there is no file |
| PairingFile.PairingFile.ClearRotationKey | src/config.rs:320-335 | Removes exactly the named rotation key from the contents found |
| PairingFile.PairingFile.MaybeRotate | src/pairing.rs:340-358 | Rotates exactly if the contents found under the lock are due, with saturating subtraction, whatever was read before; otherwise the file stays as found |
| PairingFile.ReadMeans | src/config.rs:244-300 | What is read is what the members of the file say, pending or active, and any object that holds a pairing reads as it |
| PairingFile.BegunMeans | src/config.rs:269-318 | A pending pairing that was begun reads back as it was; an existing file is never replaced, and the error says what it holds |
| PairingFile.FinishedMeans | src/config.rs:391-403 | A finish makes the pending attempt that it names active, and any other file stays, with the reason |
| PairingFile.AbortedMeans | src/config.rs:405-413 | An abort deletes a pending attempt, and if it names one only that |
| PairingFile.RemovedActiveMeans | src/config.rs:431-453 | A removal deletes exactly the active pairing of its device and client, and accepts that it is gone |
| PairingFile.ClearedMeans | src/config.rs:320-335 | Clearing takes out exactly the rotation key it names, and nothing from a file that holds another |
| PairingFile.RotatedMeans | src/pairing.rs:340-358 | A rotation is due exactly if none is unconfirmed and the last is more than 86400 seconds ago, and stores the successor of the key |
| PairingSystem.PrecedesIsShallower | src/crypto.rs:119-128 | A key derived from another is deeper and of the same root |
| PairingSystem.SameDepthSameKey | src/crypto.rs:119-128 | A lineage has one key at each depth |
| PairingSystem.AnswerFollowsFile | docs/cryptosystem.md:840-905 | Whatever request the device answers, its key stays that of the file or one step behind it |
| PairingSystem.ClearedKeyIsConfirmed | src/config.rs:320-335 | A rotation key that an answered request carried has been adopted by the device |
| PairingSystem.StartPairingIsSound | src/config.rs:300-318 | Starting a pairing keeps the invariant |
| PairingSystem.DeliverIsSound | docs/cryptosystem.md:840-905 | Delivering any request ever sent, at any time, keeps the invariant |
| PairingSystem.FinishPairingIsSound | src/config.rs:391-403 | A finish, however delayed, keeps the invariant |
| PairingSystem.ConfirmRotationIsSound | src/exchange.rs:99-107 | A clear, however delayed, keeps the invariant |
| PairingSystem.RotateIsSound | src/pairing.rs:340-358 | A rotation keeps the invariant |
| PairingSystem.StepIsSound | src/config.rs:300-453 | Every step of every process and of the device keeps the invariant |
| PairingSystem.ReachableIsSound | src/config.rs:300-453 | The invariant holds after every run |
| PairingTheorems.KeysAgree | src/pairing.rs:340-358 | In every reachable state the file's key is the device's, or its successor by the rotation key in the file; at most one rotation is unconfirmed |
| PairingTheorems.CurrentRequestAuthenticates | src/exchange.rs:56-59 | A request built from the current file authenticates and leaves the device with the key of the file |
| PairingTheorems.DelayedRequestIsHarmless | docs/cryptosystem.md:840-905 | A request built from an older snapshot never moves the device away from the key of the file |
| PairingTheorems.AnswerMeans | docs/cryptosystem.md:840-905 | What the device answers: an activation under its key, and once active its key, the one-step successor of it, which it adopts, and the key before it, which changes nothing |
| PairingTheorems.ClearNeverStrands | src/exchange.rs:99-107 | Clearing happens only after the device made the rotation; a delayed clear of another key changes nothing |
| PairingTheorems.StepMovesForward | src/config.rs:300-476 | An attempt moves only from absent to pending to active to absent, and only by a step that names it or by the user's own removal |
| PairingTheorems.FinishActivates | src/config.rs:391-403 | A finish of the attempt that the file holds makes it active |
| PairingTheorems.RunMovesForward | src/config.rs:300-476 | Over any run an attempt never moves back |
| PairingTheorems.LateStepIsHarmless | src/config.rs:320-476 | A delayed finish, rollback, removal or clear of an ended attempt leaves the file alone |
| PairingTheorems.EndedAttemptIsOver | src/config.rs:455-476 | Nothing still under way for an ended attempt touches the file again, whatever replaced it |
| PairingTheorems.EditsKeepOtherMembers | src/config.rs:320-403 | An edit keeps every member it isn't about |
| PairingTheorems.StepRotatesAfterADay | src/pairing.rs:340-358 | A rotation moves `rotated_at` by more than a day, to the clock reading, and nothing else moves it |
| PairingTheorems.RotationsTakeADayEach | src/pairing.rs:31-358 | Between two moments of one pairing, each rotation takes at least 86401 seconds of recorded time |
| PairingTheorems.OnlyOneRacerRotates | src/pairing.rs:340-358 | Of processes racing on one due rotation exactly one rotates, whatever happens in between |
| SshWire.U32Canonical | src/bin/agentknock/ssh_agent.rs:419-428 | Four bytes are the printed form of the number they are read as |
| SshWire.ReadsWhatWasPut | src/bin/agentknock/ssh_agent.rs:430-459 | A string reads back as what was put, leaving the rest |
| SshWire.ReadStrIsExact | src/bin/agentknock/ssh_agent.rs:430-459 | Whatever reads as a string was the printed form of it |
| SshWire.PutU32 | src/bin/agentknock/ssh_agent.rs:449-451 | Appends the four big-endian bytes |
| SshWire.PutString | src/bin/agentknock/ssh_agent.rs:453-459 | Appends length and bytes |
| SshWire.Cursor.String | src/bin/agentknock/ssh_agent.rs:430-438 | Takes exactly one string, or fails |
| SshIdentities.EncodedLength | src/bin/agentknock/ssh_agent.rs:332-343 | Every identity takes at least eight bytes |
| SshIdentities.EncodeIsInjective | src/bin/agentknock/ssh_agent.rs:332-343 | The printed form determines the list |
| SshIdentities.EncodeIdentitiesResponse | src/bin/agentknock/ssh_agent.rs:332-343 | The loop prints the list |
| SshIdentities.ParseIdentitiesResponse | src/bin/agentknock/ssh_agent.rs:315-330 | Accepts exactly the printed lists and yields the list that was printed; the rounds are bounded by the packet, whatever count it claims |
| SshIdentities.KeptInOrder | src/bin/agentknock/ssh_agent.rs:143-162 | The kept identities are those at the kept positions, in upstream order |
| SshIdentities.MergedBegins | src/bin/agentknock/ssh_agent.rs:143-162 | The merge begins with the selected identity if it is supported, of either key type, and has no entry with its key otherwise; the rest is from upstream |
| SshIdentities.MergedIsDistinctAndComplete | src/bin/agentknock/ssh_agent.rs:143-162 | Keys are pairwise distinct, and every first occurrence of another key is there |
| SshIdentities.MergedFits | src/bin/agentknock/ssh_agent.rs:253-266 | The packet limit keeps the count conversion from failing |
| SshIdentities.Filter | src/bin/agentknock/ssh_agent.rs:143-162 | The one-pass filter over a set of seen keys is that merge |
| SshIdentities.IdentitiesResponse | src/bin/agentknock/ssh_agent.rs:143-162 | Any upstream packet is merged if it is a printed list and contributes nothing otherwise |
| SshIdentities.AnswerReadsBack | src/bin/agentknock/ssh_agent.rs:143-162 | Parsing the answer yields the selected identity, exactly if it is supported, and then the kept upstream ones, without a repeated key |
| SshIdentities.PrintedAnswer | src/bin/agentknock/ssh_agent.rs:332-343 | An answer, byte for byte |
| SshAuthentication.ReadsPrinted | src/bin/agentknock/ssh_agent.rs:345-399 | Decoding is unique: a printed message reads back as its session, user and host key |
| SshAuthentication.ReadIsExact | src/bin/agentknock/ssh_agent.rs:345-399 | What reads as an authentication was printed from it |
| SshAuthentication.ReadableIsAuthentication | src/bin/agentknock/ssh_agent.rs:345-399 | The readable messages are exactly the printed ones |
| SshAuthentication.PrintedAuthentication | src/bin/agentknock/ssh_agent.rs:345-399 | A plain authentication, piece by piece |
| SshAuthentication.PrintedHostBound | src/bin/agentknock/ssh_agent.rs:345-399 | A host-bound authentication, piece by piece |
| SshAuthentication.ValidHostKey | src/bin/agentknock/ssh_agent.rs:389-397 | A host key has a nonempty type and key data |
| SshAuthentication.HostKeyMeans | src/bin/agentknock/ssh_agent.rs:389-397 | A host key is a printed nonempty type and something after it |
| SshAuthentication.ValidateAuthenticationMessage | src/bin/agentknock/ssh_agent.rs:345-399 | Accepts exactly the printed authentications for the selected key and the algorithm, plain or host-bound |
| SshAgent.RouteIsUnique | src/bin/agentknock/ssh_agent.rs:130-141 | The routes, each given by the printed form of its packets, exclude each other |
| SshAgent.FlagsFixAlgorithm | src/bin/agentknock/ssh_agent.rs:164-189 | An authentication request is a sign request with the selected key whose flags are 0 for Ed25519, and 2 or 4 for RSA with SHA-256 or SHA-512 |
| SshAgent.ParseAuthentication | src/bin/agentknock/ssh_agent.rs:164-189 | A sign request is authenticated, forwarded or refused by what it says |
| SshAgent.SelectRoute | src/bin/agentknock/ssh_agent.rs:130-141 | Every packet takes exactly one route; Authenticate implies the exact encoding of key, message and the flags that fix the algorithm |
| SshAgent.IsExtensionQuery | src/bin/agentknock/ssh_agent.rs:295-298 | Accepts exactly one encoding |
| SshAgent.QueryIsPrinted | src/bin/agentknock/ssh_agent.rs:295-298 | The query, the answer to it and a sign request, byte for byte |
| SshAgent.QueryResponseReads | src/bin/agentknock/ssh_agent.rs:300-313 | The printed answers are exactly the readable ones |
| SshAgent.ValidExtensionQueryResponse | src/bin/agentknock/ssh_agent.rs:300-313 | The loop accepts exactly the printed answers |
| SshAgent.UnixStream.WritePacket | src/bin/agentknock/ssh_agent.rs:268-277 | Writes the frame whole, or a part of it and fails; a packet that doesn't fit its length isn't begun |
| SshAgent.UnixStream.ReadPacket | src/bin/agentknock/ssh_agent.rs:253-266 | Yields exactly the framed packets of a permitted length, and None exactly at the end |
| AgentConnection.AgentConnection.constructor | src/bin/agentknock/ssh_agent.rs:193-199 | Without a socket the upstream agent is unavailable from the start |
| AgentConnection.AgentConnection.Forward | src/bin/agentknock/ssh_agent.rs:225-251 | Dials if needed, exchanges one packet for one reply, and gives the agent up on any failure; an agent that can be reached and serves the packet is the one that answers |
| AgentConnection.AgentConnection.Handle | src/bin/agentknock/ssh_agent.rs:201-223 | Each client packet adds one legal turn with one action; the upstream stream carries exactly what the turns sent, the replies are taken from it in order, and a packet to be forwarded is answered by an agent that serves it |
| AgentConnection.PhasesMoveForward | src/bin/agentknock/ssh_agent.rs:225-251 | Over every run the upstream agent is never dialed again and never leaves Unavailable, and nothing is sent to it then |
| AgentConnection.DialedAtMostOnce | src/bin/agentknock/ssh_agent.rs:225-251 | It is dialed at most once, before anything is sent |
| AgentConnection.OnlyOtherKeysAreSent | src/bin/agentknock/ssh_agent.rs:201-223 | It only ever sees identity requests, extensions and sign requests for other keys |
| AgentConnection.SelectedStaysUsable | src/bin/agentknock/ssh_agent.rs:201-223 | Whatever became of it, the selected identity, of either key type, is listed first, or its key nowhere if it isn't supported; its authentications are met without it, and only those are, each with flags that stand for its algorithm |
| AgentConnection.RepliesArePassedOn | src/bin/agentknock/ssh_agent.rs:201-223 | Requests for other keys, extensions and identity requests are all forwarded; replies are passed on as they are, a query answer only if it is one, and the identities of a reply are merged |
| AgentConnection.AloneItAnswersForItself | src/bin/agentknock/ssh_agent.rs:201-223 | Without it every packet still gets its exact answer, byte for byte: the supported selected identity alone, an empty query answer, or a failure |
| SecretOptions.ValidateEnvironmentName | src/secret_use.rs:536-543 | Accepts exactly the legal names |
| SecretOptions.ValidateOptions | src/secret_use.rs:478-519 | Accepts exactly consistent options with a nonempty selection and legal names |
| SecretOptions.LegalMeans | src/secret_use.rs:478-519 | Legal options, spelled out: what is renamed or sent to standard input is selected, not omitted and used once, and a selection is nonempty and leaves nothing to omit |
| SecretOptions.ValidateSecretOptions | src/secret_use.rs:466-530 | Accepts exactly nonempty requests of named secrets with legal options and at most one standard input |
| SecretDelivery.ValidateReturnedVariables | src/secret_use.rs:545-576 | Accepts exactly the returned variables that obey the options |
| SecretDelivery.AddVariables | src/secret_use.rs:415-437 | Taking the variables in any order adds exactly the relation of one secret, and fails exactly on two values for one name |
| SecretDelivery.DeliverOne | src/secret_use.rs:413-458 | The exact conditions and effect of one secret, environment or SSH |
| SecretDelivery.Deliver | src/secret_use.rs:398-464 | Succeeds exactly on acceptable responses, with exactly the relation as the resulting map |
| SecretDelivery.EveryVariableIsRouted | src/secret_use.rs:415-437 | Every returned variable reaches standard input, or its new name if it was to be renamed, or its own name, with its value |
| SecretDelivery.NothingElseArrives | src/secret_use.rs:415-437 | Every delivered name is the new name of a returned variable that was to be renamed, or the name of one that wasn't, and isn't sent to standard input |
| SecretDelivery.SelectionIsKept | src/secret_use.rs:545-576 | In an accepted response exactly the selected variables are returned, none that was omitted, and all that are renamed or sent to standard input |
| SecretDelivery.SshIsDelivered | src/secret_use.rs:438-458 | The SSH key delivered is that of the one SSH secret, for which no variables were asked |
| SecretDelivery.ConflictsAreRefused | src/secret_use.rs:415-437 | Two variables that go to one name have one value in an accepted response |
| SecretDelivery.NothingElseIsRefused | src/secret_use.rs:398-464 | A response is refused only for a wrong set of secrets, a selection that isn't kept, an SSH secret with variables or without a key, two of them, or two values for one name |
| SecretDelivery.DeliveryIsUnique | src/secret_use.rs:398-464 | For validated options the order of the pass doesn't matter |
| RunOptions.ValidateRunEnvironmentName | src/bin/agentknock/main.rs:649-653 | Accepts exactly portable shell identifiers |
| RunOptions.SelectSecrets | src/bin/agentknock/main.rs:717-726 | Accepts exactly lists without a duplicate |
| RunOptions.AddOnly | src/bin/agentknock/main.rs:728-740 | Accepts exactly legal pairs, and selects exactly the listed variables |
| RunOptions.AddOmit | src/bin/agentknock/main.rs:741-749 | Accepts exactly legal pairs, and omits exactly the listed variables |
| RunOptions.AddRename | src/bin/agentknock/main.rs:750-763 | Accepts exactly legal triples, and renames exactly the listed variables |
| RunOptions.SetStdin | src/bin/agentknock/main.rs:764-771 | Sets standard input for one selected secret |
| RunOptions.ValidateRunEnvironmentOptions | src/bin/agentknock/main.rs:806-841 | Accepts exactly consistent options |
| RunOptions.BuildOptions | src/bin/agentknock/main.rs:717-774 | Accepts exactly the commands whose lists are legal and describe consistent options, and builds those |
| RunOptions.OnlyOneIsDescribed | src/bin/agentknock/main.rs:717-774 | The lists describe one option map |
| RunOptions.DescribedMeans | src/bin/agentknock/main.rs:728-771 | The selection, omissions and standard input of a secret, value by value of the lists |
| RunOptions.RenamesMeans | src/bin/agentknock/main.rs:750-763 | Each group of three values is a secret, a variable and its new name |
| RunOptions.RenamesComeFrom | src/bin/agentknock/main.rs:750-763 | Each new name comes from such a group |
| RunOptions.AcceptedIsLegal | src/secret_use.rs:466-530 | An accepted command passes the library validator if and only if it names a secret and no secret name is empty |
| ChangedPaths.FieldIsUnique | src/bin/agentknock/git_repository.rs:193-196 | A terminated field is determined by the bytes |
| ChangedPaths.PrintIsInjective | src/bin/agentknock/git_repository.rs:193-234 | The printed entries are determined by the bytes |
| ChangedPaths.Fields.Next | src/bin/agentknock/git_repository.rs:194-201 | Splits off one field at a time |
| ChangedPaths.Collect | src/bin/agentknock/git_repository.rs:202-231 | The paths stay the complete report of the entries so far, or absent for good |
| ChangedPaths.ReportMeans | src/bin/agentknock/git_repository.rs:202-231 | There is a report exactly for at most 50 entries that all have a known letter, A, D, M or T, and a safe decoded path, and it lists them by those |
| ChangedPaths.ParseChangedPaths | src/bin/agentknock/git_repository.rs:193-234 | Accepts exactly printed entries, with the true count; the paths are present exactly for at most 50 entries, all of known status and safe path, and then complete and in order |
| PairingSas.DisplayReadsBack | src/pairing.rs:40-51 | Three groups of four digits, inverted by weighing the groups with 10^8, 10^4 and 1 |
| PairingSas.Displayed | src/pairing.rs:40-51 | A display, digit for digit |
| PairingSas.DisplayIsInjective | src/pairing.rs:40-51 | Different values are displayed differently |
| PairingSas.PreimagesCount | src/crypto.rs:177-180 | Every display comes from 18446744 or 18446745 of the 2^64 derived values, by a threshold |
| PairingSas.FavouredCount | src/crypto.rs:177-180 | Exactly 73709551616 of the 10^12 displays have the larger number |

## Left out

- `start_pairing` as a whole: its exchange is unauthenticated and its payloads are of other types; its writes to the pairing file and its rollback are steps of `PairingSystem`.
- Other users of the exchange, such as the secret list, uploads and Git signing: they add no state of their own.
- TLS, proxies, WebSocket framing, URLs and headers: an await of `World` succeeds, fails or delivers any frame.
- Timeouts: a connection attempt or read that times out is the outcome Unreachable or Gone, any await of a brief handoff can be where its timeout strikes, and the timeout values aren't modelled.
- Real cryptography: sealing and derivation are injective constructors, and opening succeeds exactly in the same context.
- Fresh identifiers: that client IDs and rotation keys aren't repeated is assumed where steps are enabled.
- JSON: payloads are what they decode to, and the pairing file is an object; a file that holds an array or a scalar isn't modelled, nor are serialization failures.
- File permissions, file-system errors, durability and crash recovery: a lock-held section is one step that is made or refused.
- Wall-clock time: the clock is an integer that only awaits and sleeps advance.
- A call whose own future is dropped by its caller: it is returned as Interrupted instead of not returning; in a handoff that cancellation has already shortened, the record tells it apart by a last look that finds the future dropped.
- Progress callbacks, log output and the text of error messages.
- `SelectedIdentity::from_openssh`, Base64 and UTF-8: a selected identity is given, and decoding a path is an arbitrary function.
- Dropping a forwarded agent packet half way: the agent connection then ends with its client.
- `commit_tree_and_parent`, `git_object_id`: a scan over header lines that would add only easy members.
- `sanitize_remote`: string heuristics without a clean universal statement.
- The argument parser: the command line starts from lists of values, with two values for standard input.
- Process inspection, signals, file descriptors and executable selection.
