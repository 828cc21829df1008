# Paseo: verified models of its protocol and state cores

This Dafny project models ten stateful or data-transforming cores of the Paseo repository and
proves what they are for. Each core has a specification written as functions on values, laws that
say on states and fields exactly what each operation does and when it is accepted, theorems about
all its runs or all its inputs, and, where the original changes things step by step, classes
or loops proved against the specification.

| core | files |
|---|---|
| End-to-end encrypted channel | `Primitives`, `Channel`, `ChannelLaws`, `ChannelSystem`, `ChannelSystemLaws`, `ChannelInvariant`, `ChannelProgress`, `ChannelOrder`, `EncryptedChannel`, `Base64` |
| Arena battle service | `Arena`, `ArenaLaws`, `ArenaSystem`, `ArenaHistory`, `ArenaTokens`, `ArenaService` |
| Relay durable object | `Relay`, `RelayLaws`, `RelayInvariant`, `RelayDelivery`, `RelayRouting`, `RelayObject` |
| Terminal snapshot renderer | `Terminal`, `TerminalSnapshot`, `TerminalReplay`, `TerminalFidelity` |
| Terminal input-mode tracker | `InputMode`, `InputModeStream`, `InputModeRestore`, `InputModeLaws`, `InputModeTracker` |
| Blinding transform | `BlindResponse`, `BlindPayload`, `BlindMeaning` |
| Daemon client: waiters, send queue, connection | `ClientRequests`, `ClientConnection`, `ClientInvariant`, `ClientLaws`, `ClientRuns`, `ClientReconnect`, `DaemonClient` |
| Provider snapshot codec | `JsonText`, `SnapshotCodec` |
| Highlighter | `Highlighter` |
| Shared definitions | `Common` |

How the models stand to the code:

- **Channel.** Client, two FIFO links and daemon are one step system at the granularity of `await`.
  Cryptography is a record of functions with laws (shared keys agree, decryption inverts encryption
  under the same key, 40 bytes of overhead), with a concrete instance to show the laws can be met.
  Nothing on the link is forged, but hellos are repeated at any time. Against arbitrary peers the
  properties of a single channel hold.
- **Arena.** Any number of operations interleave at their awaits, each with its own read, change and
  put; reads and puts can fail, closures throw. Background comparisons are in flight between their
  start and their write. The store is an atomic map.
- **Relay.** Sockets carry their tags and outboxes; which sends fail is arbitrary. A socket stays
  listed until its close event. The nudge timer is an optional sync or close of the control sockets.
- **Terminal.** A small interpreter (SGR, CUP, cursor shape and visibility, autowrap, line feed with
  scrollback) gives rendered text its meaning.
- **Daemon client.** Listeners run in the middle of the client's functions and may call back into it.
  What remains of a function after its listeners is a frame on a stack; a frame can be preceded by
  any calls, and events happen only when the stack is empty. Waiters and sends are named by the
  number of the call that made them.

Where the code does less than one would expect, the exact condition is proved:

- A chunk that ends in a lone ESC is not kept as pending (`CutSafeIff`).
- A flush of the relay that throws loses the frames after the failing one (`FlushConservesIff`), and
  leaves that one behind whatever is sent before the next flush (`BuffersLostIff`, `ThrowReorders`).
- A daemon whose first list is not sent does not know of the clients already there
  (`ViewsExactLostIff`); a nudge repairs that (`NudgeRepairs`).
- Live sends can overtake queued ones, on the channel (`CallOrderLostIff`) and in the daemon client,
  where a resubscription of files does so on every reconnect with a queue (`WireOrderLostIff`,
  `OvertakingReachable`).
- A wrapped line whose last row is blank shifts later rows up (`ReproducesIff`).
- A comparison skipped for want of edits is not final (`UnavailableIsFinalIff`,
  `StaleGenerationOverwrites`).
- `connect()` during the backoff leaves the timer armed, which later drops the live connection
  without rejecting its waiters (`BackoffLostIff`, `LateTimerDropsConnection`).
- `close()` leaves the promise of `connect()` unsettled, and so does a second `connect()` from a
  listener of "connecting" (`PromiseLostIff`).
- `connect()` stores its promise after its executor has run. If the transport factory throws there,
  the rejected promise stays, and with reconnecting disabled no later `connect()` tries again
  (`ThrowingFactorySticksIff`, `StuckForever`).
- A resubscription that throws when the client becomes connected skips the flush and leaves the queue
  waiting while connected (`QueueOkLostIff`).
- An opaque name is inserted as it is if and only if it has no replacement pattern (`PlainIff`).

One condition is exact only in part. That names neither contain one another nor share an edge is
enough for every text and every set of variants (`BlindedTextIsFree`). It is also necessary for a
single variant without a border (`CompatibleIff`); with a border, leftmost matching can save a text.

## Model

| member | source | states |
|---|---|---|
| ChannelInvariant.KeysAgree | packages/relay/src/encrypted-channel.ts:154-315 | In every run of client, FIFO links and daemon, with hellos repeated at any time: if both ends are open they hold the same shared key and the same binaryCiphertext flag, and neither end has given up on a frame |
| ChannelInvariant.DaemonToClient | packages/relay/src/encrypted-channel.ts:384-482 | In every run what the client delivered is a prefix of what the daemon sent; until the client closes, the missing part is exactly what is awaited or on the link |
| ChannelInvariant.DaemonToClientComplete | packages/relay/src/encrypted-channel.ts:384-482 | With nothing awaited or on the link the client has received exactly what the daemon sent, once and in order |
| ChannelInvariant.ClientToDaemon | packages/relay/src/encrypted-channel.ts:462-501 | In every run the daemon receives a prefix of the wire; the live sends on the wire are all of them in order, the queued ones a prefix of the last at most 200 queued, and all of those once the flush is over |
| ChannelInvariant.ClientToDaemonComplete | packages/relay/src/encrypted-channel.ts:462-501 | When drained, the daemon has received the last at most 200 queued sends and all live sends, each group in order, once each, text and binary kept apart |
| ChannelInvariant.NextInv | packages/relay/src/encrypted-channel.ts:358-460 | The protocol invariant (key agreement, honest links, the ledgers of both directions) is kept by every step at await granularity |
| ChannelInvariant.Reachable | packages/relay/src/encrypted-channel.ts:154-315 | The invariant holds in every reachable state |
| ChannelInvariant.ReplayHonest | packages/relay/src/encrypted-channel.ts:294-297 | Replaying the frames buffered while ready was being sent, minus handshake frames, hands on exactly the plaintexts among them in order |
| ChannelProgress.UsefulStepProgress | packages/relay/src/encrypted-channel.ts:154-315 | From every undisturbed, undrained state of the invariant a named step makes a finite measure smaller without a new send |
| ChannelProgress.EveryRunCanFinish | packages/relay/src/encrypted-channel.ts:154-315 | From every reachable state in which nobody closed, some continuation without new sends completes handshake and delivery |
| ChannelOrder.CallOrderLostIff | packages/relay/src/encrypted-channel.ts:366-370 | On the wire the queued sends come before the live ones with none still to come, until and only until a send on the open channel finds some of the queue unflushed |
| ChannelOrder.DeliveredInCallOrder | packages/relay/src/encrypted-channel.ts:462-501 | In every run without such a send the daemon receives a prefix of the last at most 200 queued sends followed by the live ones, in call order; all of it when drained |
| ChannelProgress.LiveSendCanOvertake | packages/relay/src/encrypted-channel.ts:366-370 | Such a send is reachable: the live message is on the wire ahead of the one queued before it |
| Channel.StepContinues | packages/relay/src/encrypted-channel.ts:358-460 | No single event, with arbitrary inbound frames, changes the key, leaves closed, or renegotiates after the handshake |
| Channel.KeyFixedAndClosedAbsorbing | packages/relay/src/encrypted-channel.ts:503-531 | The same over all runs of a channel against an arbitrary peer |
| Channel.ClosedSendsNothing | packages/relay/src/encrypted-channel.ts:462-473 | A closed channel sends nothing; only handleMessage calls that are past their state check can still deliver |
| Channel.PendingBounded | packages/relay/src/encrypted-channel.ts:463-468 | In every run at most 200 sends are pending |
| Channel.FatalDecryptLeavesOpen | packages/relay/src/encrypted-channel.ts:448-459 | A failed decrypt or plaintext frame asks the transport to close with 1011, exactly then, and leaves the state open |
| Messages.SealedIsNoHandshake | packages/relay/src/encrypted-channel.ts:388-417 | No sealed frame is read as hello or ready, before or after the channel opens |
| Messages.SealedOpens | packages/relay/src/encrypted-channel.ts:419-426 | In the negotiated mode a sealed frame opens to what was sent, text or binary included |
| Messages.LegacyKindPreserved | packages/relay/src/encrypted-channel.ts:428-440 | Without negotiation the kind survives if and only if the data is text or is not valid UTF-8 |
| Messages.WireLengthAdjoint | packages/relay/src/encrypted-channel.ts:123-129 | For all n and w, base64EncryptedWireByteLength(n) <= w if and only if n <= maxBase64EncryptedPlaintextByteLength(w) |
| Messages.OutboundLengthExact | packages/relay/src/encrypted-channel.ts:485-492 | outboundWireByteLength equals the size of the frame that send hands to the transport |
| EncryptedChannels.EncryptedChannel.HandleMessage | packages/relay/src/encrypted-channel.ts:358-460 | One inbound frame up to the first await: its fields, frames, closes and deliveries are those of the channel model; stated on the fields, a hello with another key leaves the state closed with 1008, one with the same key answers with ready and changes nothing |
| EncryptedChannels.EncryptedChannel.HandleDaemonRehello | packages/relay/src/encrypted-channel.ts:503-531 | Stated on the fields: without a secret nothing; for another key the state is closed and the transport closed with 1008; for the same key one ready if it can be sent; only an unimportable key or a failed send throw |
| EncryptedChannels.EncryptedChannel.ResumeMessage | packages/relay/src/encrypted-channel.ts:443-459 | The rest of handleMessage behind its await |
| EncryptedChannels.EncryptedChannel.Send | packages/relay/src/encrypted-channel.ts:462-483 | Queue while handshaking, dropping the oldest past 200; throw when closed; else seal and send |
| EncryptedChannels.EncryptedChannel.StartFlush | packages/relay/src/encrypted-channel.ts:494-497 | The pending sends are taken away, once, when the channel is open |
| EncryptedChannels.EncryptedChannel.FlushNext | packages/relay/src/encrypted-channel.ts:498-500 | One awaited send of the flush; a failure closes the channel with 1011 |
| EncryptedChannels.EncryptedChannel.OutboundWireByteLengthOf | packages/relay/src/encrypted-channel.ts:485-492 | The number is the size of the sealed frame |
| EncryptedChannels.EncryptedChannel.Close | packages/relay/src/encrypted-channel.ts:533-536 | The state is closed and the transport is told so |
| EncryptedChannels.KeysEqual | packages/relay/src/encrypted-channel.ts:578-585 | The accumulating loop returns true if and only if the keys are equal |
| EncryptedChannels.DaemonHandshake.HandleHello | packages/relay/src/encrypted-channel.ts:245-285 | Accepts exactly the hellos with an importable key; then derives the key and sends ready; on an unimportable key the handshake has ended, else it waits on |
| EncryptedChannels.DaemonHandshake.BufferNext | packages/relay/src/encrypted-channel.ts:269-272 | Frames that arrive while ready is being sent are buffered in order |
| EncryptedChannels.DaemonHandshake.ReadySent | packages/relay/src/encrypted-channel.ts:287-299 | The open channel that has been fed the buffered frames; stated on its fields, exactly those that are no handshake traffic wait in order, and nothing is sent, closed or delivered yet |
| EncryptedChannels.DaemonHandshake.ShouldIgnorePostHelloPlaintext | packages/relay/src/encrypted-channel.ts:234-243 | True exactly for hello and ready frames |
| EncryptedChannels.ClientHandshake.RetryFires | packages/relay/src/encrypted-channel.ts:204-210 | A tick resends the hello exactly while the channel is not open, and ends the interval otherwise; on a transport that takes the frame it is the retry step of the protocol |
| ChannelLaws.HelloOnOpenChannel | packages/relay/src/encrypted-channel.ts:503-531 | On an open daemon channel, a hello with an importable key: another key closes the channel and the transport with 1008, sending and delivering nothing; the same key is answered by one ready and changes nothing; if that cannot be sent the frame goes on to be decrypted |
| ChannelLaws.OtherKeyClosesForGood | packages/relay/src/encrypted-channel.ts:526-530 | After such a hello with another key the channel is closed whatever happens later |
| ChannelLaws.HandshakeEndsIff | packages/relay/src/encrypted-channel.ts:361-382 | While handshaking the channel opens if and only if the frame is a ready, in the mode that names, with its queue whole and the flush due; any other frame changes nothing |
| ChannelLaws.OtherFrames | packages/relay/src/encrypted-channel.ts:384-447 | Any other frame on an open channel: handshake traffic not for it is ignored, a plaintext object waits to close it, the rest waits to be decrypted |
| ChannelLaws.ResumedFrame | packages/relay/src/encrypted-channel.ts:443-459 | A waiting frame is delivered if it decrypts; if not the transport is asked to close with 1011 |
| ChannelLaws.OpenedAs | packages/relay/src/encrypted-channel.ts:560-572 | A ciphertext opens to nothing if it does not decrypt, or came as a text and is no UTF-8; to bytes if it came as bytes, or came without negotiation and is no UTF-8; else to that text |
| ChannelLaws.AppSends | packages/relay/src/encrypted-channel.ts:462-483 | send gives one sealed frame on an open channel; while handshaking it goes last in the queue, which drops its oldest at 200; closed, nothing |
| ChannelLaws.FlushTakesQueue | packages/relay/src/encrypted-channel.ts:494-497 | A due flush takes the whole queue exactly if the channel is open |
| ChannelLaws.FlushSendsNext | packages/relay/src/encrypted-channel.ts:498-500 | Each send of the flush puts the next item on the wire, or ends the flush and closes with 1011 |
| ChannelLaws.HelloWithoutKey | packages/relay/src/encrypted-channel.ts:503-506 | A hello with a key that cannot be imported goes on to be decrypted and has no effect of its own |
| ChannelLaws.Ends | packages/relay/src/encrypted-channel.ts:533-536 | close and the close event of the transport close the channel, and only the first tells the transport |
| ChannelLaws.HandshakeFrameIff | packages/relay/src/encrypted-channel.ts:83-106 | For any JSON value: it reads as hello or ready if and only if its type, key and capabilities have the required form, and with the flag it carries |
| ChannelLaws.OpenFrameIff | packages/relay/src/encrypted-channel.ts:384-391 | On an open channel a text is read as JSON exactly when, trimmed, it begins with a brace; a binary frame never |
| ChannelLaws.LegacyRawFrame | packages/relay/src/encrypted-channel.ts:419-440 | Without negotiation a raw binary frame that is not base64 is opened, its kind kept under the same condition as a base64 one |
| ChannelSystemLaws.ClientSide | packages/relay/src/encrypted-channel.ts:154-226 | Each client step does to its end exactly what the event of a channel does, puts its frames behind those on the link, takes the first frame off the other, and clears the interval when the channel opens or the transport closes |
| ChannelSystemLaws.TicksRepeatHello | packages/relay/src/encrypted-channel.ts:204-210 | Any number n of ticks while nothing arrives puts n hellos behind what is on the link, and on an open channel none |
| ChannelSystemLaws.RetryWhileHandshaking | packages/relay/src/encrypted-channel.ts:198-210 | In every run the interval is armed while the client is handshaking and never once its channel is open |
| ChannelSystemLaws.DaemonWaits | packages/relay/src/encrypted-channel.ts:245-285 | The daemon answers the first hello with an importable key by one ready; other frames before it are dropped, an unimportable key ends the handshake |
| ChannelSystemLaws.DaemonOpens | packages/relay/src/encrypted-channel.ts:269-299 | Frames that arrive while ready is being sent are kept in order; then the channel is open with exactly those that are no handshake traffic waiting to be decrypted, in order |
| ChannelSystemLaws.DaemonSide | packages/relay/src/encrypted-channel.ts:358-460 | With the channel established each daemon step is the event of a channel, wired to the link |
| Base64.DecodeEncode | packages/relay/src/base64.ts:3-19 | Decoding inverts encoding for every byte string |
| Base64.DecodeSpelling | packages/relay/src/base64.ts:7-19 | Every spelling of an encoding decodes to the same bytes: any of + and / URL-safe, any part of the padding missing, whitespace around |
| Base64.ToByteArrayEncode | packages/relay/src/base64.ts:3-19 | The RFC 4648 codec underneath (section 4) round-trips every byte string |
| Base64.EncodeIsNoObject | packages/relay/src/base64.ts:3-5 | An encoding is unchanged by trimming and never starts with an opening brace |
| Base64.EncodeBits | packages/relay/src/base64.ts:3-5 | Every three bytes are four characters with the same 24 bits, most significant first, missing bytes as zero bits, padding exactly where no byte is left (RFC 4648 section 4) |
| Base64.AlphabetIs | packages/relay/src/base64.ts:3-5 | The characters for 0 to 63 are those of table 1 of RFC 4648 |
| ArenaSystem.MutualExclusion | packages/arena-proxy/src/service.ts:339-354 | In every interleaving, of two operations on one battle id at most one is inside; whoever is inside has every earlier arrival finished and every later one waiting, also when operations throw |
| ArenaSystem.TailMapExact | packages/arena-proxy/src/service.ts:340-352 | In every run the tail map has an entry for an id exactly while some operation on it is unfinished |
| ArenaSystem.NextMutex | packages/arena-proxy/src/service.ts:339-354 | The mutex invariant (promise chain, arrival order, exact tails) is kept by every step |
| ArenaSystem.RunMutex | packages/arena-proxy/src/service.ts:339-354 | And so it holds in every run |
| ArenaHistory.StoreIsSerial | packages/arena-proxy/src/service.ts:145-200 | In every run the stored record of a battle is what its committed operations give when run one at a time in arrival order |
| ArenaHistory.NextLedger | packages/arena-proxy/src/service.ts:145-200 | The bookkeeping behind that theorem is kept by every step |
| ArenaHistory.RecordsWellFormed | packages/arena-proxy/src/service.ts:145-255 | Every stored record of every run: a winner iff the vote is A, B or tie, on a completed side; decided early or stopped implies unavailable; generating, completed or error implies both sides completed and not decided early |
| ArenaHistory.RecordsEvolve | packages/arena-proxy/src/service.ts:145-255 | Between any two states of a run votes, decisions and completion times are written once, and a stopped or early-decided battle keeps its comparison |
| ArenaHistory.UnavailableForever | packages/arena-proxy/src/service.ts:324-330 | Stopped or decided early means unavailable in every later state, whatever generation was in flight |
| ArenaHistory.NextRecords | packages/arena-proxy/src/service.ts:222-331 | The lifecycle invariant, strengthened by what is known of comparisons in flight, is kept by every step |
| Arena.ApplyEvolves | packages/arena-proxy/src/service.ts:145-255 | One operation on a well-formed record leaves a well-formed record and undoes nothing |
| Arena.FinalStays | packages/arena-proxy/src/service.ts:324-330 | No sequence of permitted operations changes a final comparison |
| Arena.UnavailableIsFinalIff | packages/arena-proxy/src/service.ts:242-249 | An unavailable comparison is the last word under all permitted operations if and only if the battle was stopped or decided early |
| ArenaTokens.TokenResolvesIffUndecided | packages/arena-proxy/src/service.ts:202-214 | In every run, with fresh tokens, a side token resolves to its model while the battle is undecided, and to nothing afterwards |
| ArenaTokens.RevealedMeansRevoked | packages/arena-proxy/src/service.ts:43-58 | The models of a battle are revealed only when neither side token resolves |
| ArenaTokens.EveryOperationCanFinish | packages/arena-proxy/src/service.ts:345-353 | From every reachable state all operations can finish and the tail map become empty: an error never leaves the lock held |
| ArenaTokens.StaleGenerationOverwrites | packages/arena-proxy/src/service.ts:242-249 | A reachable run in which a comparison skipped for want of edits is overwritten by an earlier generation in flight |
| ArenaService.BattleRecord.MarkComplete | packages/arena-proxy/src/service.ts:147-150 | The completion time is written once; the update time always |
| ArenaService.BattleRecord.CastVote | packages/arena-proxy/src/service.ts:157-182 | Stated on the fields: accepted if and only if undecided with the chosen side (for a tie both) complete; then vote, winner, early decision, times and comparison are written, else nothing |
| ArenaService.BattleRecord.Stop | packages/arena-proxy/src/service.ts:189-197 | Stated on the fields: accepted if and only if undecided; then stopped without winner and unavailable |
| ArenaService.BattleRecord.StartComparison | packages/arena-proxy/src/service.ts:230-254 | Stated on the fields: accepted exactly under the six conditions; then generating, or unavailable without edits |
| ArenaService.BattleRecord.WriteComparison | packages/arena-proxy/src/service.ts:325-329 | Stated on the fields: the background result is written if and only if the battle was not stopped |
| ArenaService.ArenaProxyService.BeginMutation | packages/arena-proxy/src/service.ts:340-346 | The previous tail is found and replaced as the step model says |
| ArenaService.ArenaProxyService.EndMutation | packages/arena-proxy/src/service.ts:350-353 | The tail is removed only if no later operation replaced it |
| ArenaService.ArenaProxyService.ResolveModelToken | packages/arena-proxy/src/service.ts:202-214 | The nested loops return what the resolution function says |
| ArenaLaws.VoteAcceptedIff | packages/arena-proxy/src/service.ts:157-182 | A vote other than stopped is accepted if and only if the battle is undecided and the chosen side, for a tie both, is complete; then exactly vote, winner, early decision, decision and update times and, if early, the comparison change; refused, nothing is put and the error says why |
| ArenaLaws.StopAcceptedIff | packages/arena-proxy/src/service.ts:189-197 | A stop is accepted if and only if the battle is undecided; then exactly vote, winner, times and comparison change |
| ArenaLaws.CompletionRecorded | packages/arena-proxy/src/service.ts:145-150 | A completion is always accepted; the first time of the side stays and nothing else but the update time changes |
| ArenaLaws.ComparisonAcceptedIff | packages/arena-proxy/src/service.ts:222-255 | A comparison starts if and only if the battle is not stopped nor decided early, both sides are complete, the prompt is the battle's and the number of files a natural number; then it is generating, or skipped without edits |
| ArenaLaws.ResultWrittenIff | packages/arena-proxy/src/service.ts:324-330 | The result of a generation is put unless the battle was stopped; then nothing is put or thrown |
| ArenaLaws.UnknownBattleRefused | packages/arena-proxy/src/service.ts:145-200 | Every operation on an unknown id throws and puts nothing |
| ArenaLaws.RevealedIff | packages/arena-proxy/src/service.ts:43-58 | The models are revealed if and only if there is a vote other than stopped, each as its side's |
| ArenaLaws.BattleStarts | packages/arena-proxy/src/service.ts:104-129 | A new battle is undecided, nobody complete, the comparison pending, prompt and user trimmed |
| ArenaTokens.RequestAlone | packages/arena-proxy/src/service.ts:339-354 | A request that meets no other on its battle, run to its end, leaves exactly what its operation puts in the store, the locks as they were, and a generation in flight if and only if a comparison with edits was accepted |
| ArenaTokens.FailedRead | packages/arena-proxy/src/service.ts:339-354 | A request whose read of the store throws leaves store, locks and generations as they were |
| ArenaTokens.FailedPut | packages/arena-proxy/src/service.ts:339-354 | And so does one whose put throws |
| RelayInvariant.RunControl | packages/relay/src/cloudflare-adapter.ts:277-311 | In every run, whatever sends fail: at most one control socket and one data socket per id is up; a control socket that is up, folding sync, connected and disconnected, holds only ids with a listed client, and all of them once it has been sent a list |
| RelayInvariant.ViewsExactLostIff | packages/relay/src/cloudflare-adapter.ts:394-408 | Every control socket that is up holds exactly the ids with a listed client, until and only until one is accepted whose first list is not sent while there are clients |
| RelayInvariant.DaemonViewExact | packages/relay/src/cloudflare-adapter.ts:394-408 | In every run without such an event every view is exact |
| RelayInvariant.NudgeRepairs | packages/relay/src/cloudflare-adapter.ts:219-250 | From every reachable state a nudge that finds a client without a data socket makes all views exact: whoever cannot be sent the list is closed |
| RelayInvariant.MissedClientReachable | packages/relay/src/cloudflare-adapter.ts:399-408 | A reachable daemon that does not know of a client, until the nudge |
| RelayInvariant.NextView | packages/relay/src/cloudflare-adapter.ts:338-415 | The invariants on sockets and views are kept by every accept, message, close, nudge and reset, but for that event |
| RelayRouting.RunRouting | packages/relay/src/cloudflare-adapter.ts:252-275 | In every run, whatever sends and flushes fail: the frames delivered on data sockets of a connection and those in its buffer are among the arrivals of its clients, each at most once; control sockets are sent no frame; a buffer holds at most 200 frames and exists only while a client is listed |
| RelayRouting.NextOwn | packages/relay/src/cloudflare-adapter.ts:481-494 | One event, failing or not, keeps delivered and buffered frames among the arrivals, counted |
| RelayRouting.BuffersLostIff | packages/relay/src/cloudflare-adapter.ts:262-275 | A buffer exists only while no data socket is listed, until and only until the flush to a new data socket throws on a buffered frame |
| RelayRouting.ThrowReorders | packages/relay/src/cloudflare-adapter.ts:265-274 | After such a throw any frame a client sends is delivered ahead of the buffered one; if it is a new frame, delivery is no longer a subsequence of the arrivals |
| RelayRouting.FailedFlushReorders | packages/relay/src/cloudflare-adapter.ts:265-274 | Such a throw is reachable: two frames delivered in the opposite order of their arrival |
| RelayDelivery.RunDelivery | packages/relay/src/cloudflare-adapter.ts:252-275 | In every run in which no flush throws on a buffered frame, what was delivered for a connection followed by its buffer is an in-order subsequence of what its clients sent, buffers hold at most 200 frames and exist only while a client and no data socket is listed |
| RelayDelivery.BufferExact | packages/relay/src/cloudflare-adapter.ts:252-260 | In those runs the buffer is exactly the last at most 200 frames since a data socket or no client was listed, and exists iff there is one |
| RelayDelivery.NextOrder | packages/relay/src/cloudflare-adapter.ts:481-494 | One event keeps the order of delivered and buffered frames |
| RelayDelivery.NextBuffers | packages/relay/src/cloudflare-adapter.ts:528-546 | One event leaves exactly the buffer that its arrivals and the sockets listed after it call for |
| RelayDelivery.RunServed | packages/relay/src/cloudflare-adapter.ts:497-505 | In every run what a client socket was sent came from data sockets of its own connection, in order |
| RelayDelivery.SendDelivered | packages/relay/src/cloudflare-adapter.ts:481-494 | A frame for the data sockets of a connection goes out at most once, behind everything sent before, and for no other connection |
| RelayDelivery.FlushConservesIff | packages/relay/src/cloudflare-adapter.ts:262-275 | A flush keeps every frame, sent or buffered, if and only if no send throws before the last frame |
| RelayObject.RelayDurableObject.BufferFrame | packages/relay/src/cloudflare-adapter.ts:252-260 | Push and splice leave the last at most 200 frames |
| RelayObject.RelayDurableObject.FlushFrames | packages/relay/src/cloudflare-adapter.ts:262-275 | The frames go out in order up to the first that throws; that one alone is buffered again |
| RelayObject.RelayDurableObject.HasSocket | packages/relay/src/cloudflare-adapter.ts:165-179 | True exactly when a socket with the tag is listed |
| RelayObject.RelayDurableObject.ListConnectedConnectionIds | packages/relay/src/cloudflare-adapter.ts:277-295 | Exactly the ids with a listed client |
| RelayObject.RelayDurableObject.SendToAll | packages/relay/src/cloudflare-adapter.ts:487-493 | Every usable socket with the tag gets the message, no other does |
| RelayObject.RelayDurableObject.CloseTagged | packages/relay/src/cloudflare-adapter.ts:181-195 | Exactly the sockets with the tag are closing |
| RelayObject.RelayDurableObject.NotifyAllControls | packages/relay/src/cloudflare-adapter.ts:297-311 | Every control socket gets the message or is closing |
| RelayObject.RelayDurableObject.FetchV2 | packages/relay/src/cloudflare-adapter.ts:338-415 | Replace, accept, notify or sync, flush: the accept event of the relay model |
| RelayObject.RelayDurableObject.WebSocketMessage | packages/relay/src/cloudflare-adapter.ts:471-505 | Routing or buffering as the message event of the model; stated on the sockets, a frame of a data socket is in the outbox of every listed usable client of its connection, a client's in those of the data sockets or the buffer |
| RelayObject.RelayDurableObject.WebSocketClose | packages/relay/src/cloudflare-adapter.ts:524-558 | Clean-up and notification as the close event of the model |
| RelayLaws.DaemonFrameReachesClients | packages/relay/src/cloudflare-adapter.ts:497-505 | A frame from a data socket is appended to the outbox of every listed, usable client socket of its connection, and no other socket and no buffer changes |
| RelayLaws.ClientFrameReachesDaemon | packages/relay/src/cloudflare-adapter.ts:481-494 | A frame from a client is appended to the outbox of every usable data socket of its connection if one is listed; otherwise it is the last of at most 200 in the buffer; nothing else changes |
| RelayLaws.OtherMessages | packages/relay/src/cloudflare-adapter.ts:471-480 | A message on a control socket or one no longer listed changes nothing |
| RelayLaws.DaemonGone | packages/relay/src/cloudflare-adapter.ts:547-557 | When a data socket closes exactly the client sockets of its connection are closed |
| RelayLaws.OneClientGone | packages/relay/src/cloudflare-adapter.ts:528-533 | When a client closes while others are listed nothing else changes |
| RelayLaws.LastClientGone | packages/relay/src/cloudflare-adapter.ts:534-546 | When the last client closes the buffer goes, its data sockets are closed, and each control socket is told or closed |
| RelayLaws.ControlGone | packages/relay/src/cloudflare-adapter.ts:524-558 | When a control socket closes nothing else changes |
| RelayLaws.ServerAccepted | packages/relay/src/cloudflare-adapter.ts:363-408 | A new server socket closes exactly those with its identity; a data socket is sent the buffer up to the first frame that throws, a control socket the list |
| RelayLaws.ClientAccepted | packages/relay/src/cloudflare-adapter.ts:378-398 | A new client leaves the sockets there are, but each control socket is told or closed |
| RelayLaws.NudgesAct | packages/relay/src/cloudflare-adapter.ts:219-250 | A nudge acts if and only if a client waits without a data socket; the sync goes to each usable control socket and the reset closes them all |
| RelayLaws.LiveSocketsGetAll | packages/relay/src/cloudflare-adapter.ts:471-505 | In every run in which no send of a frame fails, a client socket that is up has been sent exactly what the data sockets of its connection sent since it was accepted, in order; a data socket first the buffer, then exactly what its clients sent |
| TerminalFidelity.ReplayExact | packages/protocol/src/terminal-snapshot.ts:29-62 | For every snapshot that fits, interpreting the rendered text on a fresh terminal gives exactly one line per row that is not absorbed, with its cells, styles and wrap flags, the cursor placed, shaped and shown, and the default pen |
| TerminalFidelity.ReproducesIff | packages/protocol/src/terminal-snapshot.ts:40-49 | The replay reproduces every row on its own line if and only if each wrapped line ending in a row for which nothing is printed has only blanks behind it on an unscrolled screen |
| TerminalFidelity.CursorAndWraps | packages/protocol/src/terminal-snapshot.ts:51-61 | Without such rows the cursor position and visibility, the pen, autowrap and every row's wrap flag are reproduced |
| TerminalFidelity.CursorLooksRight | packages/protocol/src/terminal-snapshot.ts:64-80 | The replayed cursor has the style of the snapshot's and blinks unless that says false; without a style the terminal keeps its own |
| TerminalFidelity.ScreenShows | packages/protocol/src/terminal-snapshot.ts:29-49 | Without such rows the terminal shows the scrollback above the grid, row by row, each wrapped exactly as the flags of the snapshot say if there is one for every row |
| TerminalFidelity.WrappedBlankShiftsUp | packages/protocol/src/terminal-snapshot.ts:42-48 | A snapshot in which a blank last row of a wrapped line moves the next row up |
| TerminalFidelity.RunRows | packages/protocol/src/terminal-snapshot.ts:40-49 | After any number of rows the terminal shows those rows: the invariant of the row loop |
| TerminalFidelity.RowStep | packages/protocol/src/terminal-snapshot.ts:82-103 | Rendering one row, from a line start or across a wrap, takes the terminal from before it to after it |
| TerminalReplay.SgrMeaning | packages/protocol/src/terminal-snapshot.ts:162-218 | The codes of a style set exactly that style, whatever the pen was (ECMA-48 section 8.3.117) |
| TerminalReplay.RunStyle | packages/protocol/src/terminal-snapshot.ts:162-193 | Interpreting the rendered style changes the pen to it and nothing else |
| TerminalReplay.RunChange | packages/protocol/src/terminal-snapshot.ts:88-94 | Emitting a style only when it differs from the previous one leaves the pen as if it were always emitted |
| TerminalReplay.RunRowFromStart | packages/protocol/src/terminal-snapshot.ts:82-103 | A rendered row interpreted at the start of a line paints its cells and styles there, padded as asked |
| TerminalReplay.RunRowFromWrap | packages/protocol/src/terminal-snapshot.ts:43-45 | With the wrap pending, a row that prints something is painted on the next line, marked wrapped |
| Terminal.RunCsi | packages/protocol/src/terminal-snapshot.ts:52-57 | A control sequence in the text does what its dispatch does (ECMA-48 sections 8.3.21 and 8.3.117), and the parser is back to ground |
| TerminalSnapshot.RowLength | packages/protocol/src/terminal-snapshot.ts:105-130 | The content length is the index behind the last cell that is not an unstyled space |
| TerminalSnapshot.GetTerminalRowLength | packages/protocol/src/terminal-snapshot.ts:105-130 | The backward loop computes that length |
| TerminalSnapshot.RenderStyle | packages/protocol/src/terminal-snapshot.ts:162-193 | The pushes give the text of the style function |
| TerminalSnapshot.RenderTerminalRow | packages/protocol/src/terminal-snapshot.ts:82-103 | The loop with previousStyle gives the text of the row function |
| TerminalSnapshot.RenderTerminalSnapshotToAnsi | packages/protocol/src/terminal-snapshot.ts:29-62 | The loop over the rows gives the text of the snapshot function |
| TerminalSnapshot.RenderCursorPresentation | packages/protocol/src/terminal-snapshot.ts:64-80 | The six cursor shapes |
| InputModeRestore.ChunksDoNotMatter | packages/protocol/src/terminal-input-mode.ts:80-120 | Feeding chunks, none ending in ESC, one by one gives the same flags, stack, pending text, responses and OR of changed as feeding their concatenation once |
| InputModeRestore.CutSafeIff | packages/protocol/src/terminal-input-mode.ts:110-117 | Cutting behind a chunk is safe for every continuation if and only if the chunk does not end in ESC |
| InputModeRestore.CutSafe | packages/protocol/src/terminal-input-mode.ts:80-120 | One cut at a time: feeding a + b is feeding a, then b |
| InputModeRestore.FeedReads | packages/protocol/src/terminal-input-mode.ts:80-120 | feed is a character-by-character reader that resumes from the pending text and forgets a trailing ESC |
| InputModeRestore.FeedValid | packages/protocol/src/terminal-input-mode.ts:110-117 | The pending text is always an incomplete sequence, or empty |
| InputModeStream.ScanAgrees | packages/protocol/src/terminal-input-mode.ts:24-28 | Matching the two regular expressions over a whole text agrees with the character-by-character reader at every position |
| InputModeRestore.PreambleRestores | packages/protocol/src/terminal-input-mode.ts:148-163 | A fresh tracker fed getPreamble() has the state of the original, an empty stack and nothing pending, and answers nothing |
| InputModeRestore.RestoredFollows | packages/protocol/src/terminal-input-mode.ts:148-202 | On every continuation in any chunks, those ending in ESC included, whose pops never go below the restore point, a tracker fed the preamble and then the pending text stays equal to the original in state, pending text, responses and changes |
| InputModeRestore.PendingFirst | packages/protocol/src/terminal-input-mode.ts:85-119 | Pending text is equivalent to feeding it first: exactly that is what it changes, for any chunks |
| InputModeRestore.RestoredFollowsIff | packages/protocol/src/terminal-input-mode.ts:182-188 | On all continuations whatsoever, in any chunks, they stay equal if and only if the stack that was lost held only zeros |
| InputModeRestore.PreambleAloneFollowsIff | packages/protocol/src/terminal-input-mode.ts:148-163 | Restored from the preamble alone they stay equal if and only if, besides, nothing was pending |
| InputModeRestore.FeedAllReads | packages/protocol/src/terminal-input-mode.ts:80-120 | Feeding any chunks is applying the operations the reader finds in them, with a trailing ESC of each forgotten |
| InputModeRestore.NonZeroTold | packages/protocol/src/terminal-input-mode.ts:182-188 | Popping down to a non-zero lost entry tells the two apart |
| InputModeRestore.PopsClosedForm | packages/protocol/src/terminal-input-mode.ts:182-188 | n pops at once equal their closed form on the stack, also past the bottom |
| InputModeTracker.TerminalInputModeTracker.Feed | packages/protocol/src/terminal-input-mode.ts:80-120 | The exec loop and the pending tail give the value of the feed function |
| InputModeTracker.TerminalInputModeTracker.Exec | packages/protocol/src/terminal-input-mode.ts:94-98 | The leftmost match from lastIndex, or none |
| InputModeTracker.TerminalInputModeTracker.LastIndexOf | packages/protocol/src/terminal-input-mode.ts:111-111 | The last introducer in the tail |
| InputModeTracker.TerminalInputModeTracker.ApplyKittyKeyboardSequence | packages/protocol/src/terminal-input-mode.ts:165-202 | Push, set, pop loop and query as the function says |
| InputModeTracker.TerminalInputModeTracker.ParsePrivateModeParams | packages/protocol/src/terminal-input-mode.ts:46-54 | Exactly the numbers among the parameters |
| InputModeTracker.TerminalInputModeTracker.ApplyPrivateModeSequence | packages/protocol/src/terminal-input-mode.ts:204-227 | Each of the three modes set as the function says |
| InputModeTracker.TerminalInputModeTracker.GetPreamble | packages/protocol/src/terminal-input-mode.ts:148-163 | The text of the preamble function |
| InputModeTracker.TerminalInputModeTracker.Reset | packages/protocol/src/terminal-input-mode.ts:122-129 | The initial value |
| InputModeLaws.PushKeeps | packages/protocol/src/terminal-input-mode.ts:165-176 | The text of a push, in any state: the old flags on the stack, the flags the first parameter or 1 |
| InputModeLaws.SetReplaces | packages/protocol/src/terminal-input-mode.ts:177-181 | The text of a set: the flags are the first parameter or 0, and 0 if the second is 0; the stack stays |
| InputModeLaws.PopTakes | packages/protocol/src/terminal-input-mode.ts:182-188 | The text of a pop: as many entries off the stack as the first parameter says, at least one; the flags the last of them, or 0 past the bottom |
| InputModeLaws.QueryAnswers | packages/protocol/src/terminal-input-mode.ts:189-195 | A query is answered with the flags and changes nothing; the sequence without a prefix does neither |
| InputModeLaws.PrivateSwitches | packages/protocol/src/terminal-input-mode.ts:204-227 | h and l switch exactly the three modes, as far as they are named among the parameters; changed tells whether one did change |
| InputModeLaws.OthersPass | packages/protocol/src/terminal-input-mode.ts:24-28 | Any other sequence of that shape leaves everything as it is |
| InputModeLaws.ChangedIff | packages/protocol/src/terminal-input-mode.ts:80-120 | A feed reports a change if and only if one of the sequences in it changes what getState shows; without one it is the same afterwards |
| BlindResponse.BlindedTextIsFree | packages/arena-proxy/src/blind-response.ts:6-21 | If no variant contains, is contained in or shares an edge with the opaque name, and the name has no replacement pattern, no variant is left in the text in spite of the sequential replacement |
| BlindResponse.PlainIff | packages/arena-proxy/src/blind-response.ts:18-18 | replaceAll inserts the opaque name as it is at every match if and only if the name has none of the four replacement patterns |
| BlindResponse.FreeTextKept | packages/arena-proxy/src/blind-response.ts:6-21 | A text without variants is left as it is |
| BlindResponse.CompatibleIff | packages/arena-proxy/src/blind-response.ts:15-19 | For a variant without a border and a name that is not empty and has no pattern: no text whatsoever lets the variant through if and only if the name neither contains it, is contained in it, nor shares an edge with it |
| BlindResponse.ContainingLeaks | packages/arena-proxy/src/blind-response.ts:15-19 | For every variant: a name that contains it lets it through in some text |
| BlindResponse.EndLeaks | packages/arena-proxy/src/blind-response.ts:15-19 | For every variant: a name that ends in a beginning of it lets it through in some text |
| BlindResponse.PatternLeaks | packages/arena-proxy/src/blind-response.ts:18-18 | The pattern for the match puts every variant back |
| BlindResponse.BlindIdentityTextLoop | packages/arena-proxy/src/blind-response.ts:11-20 | The loop over the variants, longest first, computes the redacted text |
| BlindResponse.Variants | packages/arena-proxy/src/blind-response.ts:12-17 | Exactly the non-empty identities with and without a leading tilde, longest first |
| BlindResponse.OccurrenceTouches | packages/arena-proxy/src/blind-response.ts:18-18 | An occurrence around an inserted name lies in the text before or behind it, or touches the name in one of the excluded ways |
| BlindPayload.BlindIsClean | packages/arena-proxy/src/blind-response.ts:23-42 | The blinded payload has no variant in any string value, no identity key at any depth, and the opaque name at every model key |
| BlindPayload.BlindFixesExactlyClean | packages/arena-proxy/src/blind-response.ts:23-42 | Blinding leaves a payload alone if and only if it is clean, and blinding twice is blinding once |
| BlindMeaning.TextIsRedacted | packages/arena-proxy/src/blind-response.ts:6-21 | The redacted text is the text with every leftmost match of each variant, longest first, replaced by the expanded name, and nothing else; a relation with one solution, stated without the functions |
| BlindMeaning.RedactedUnique | packages/arena-proxy/src/blind-response.ts:6-21 | A text has one such redaction |
| BlindMeaning.PlainFill | packages/arena-proxy/src/blind-response.ts:18-18 | With a name without patterns the parts between the matches stay and the name stands between them |
| BlindMeaning.VariantsAre | packages/arena-proxy/src/blind-response.ts:12-17 | The variants before sorting are exactly the identities and what is behind a leading tilde |
| BlindMeaning.SortStable | packages/arena-proxy/src/blind-response.ts:17-17 | Variants of one length stay in their order |
| BlindMeaning.BlindIsBlindedAs | packages/arena-proxy/src/blind-response.ts:23-42 | The blinded payload relates to the original: scalars and array lengths kept, items blinded one by one, fields in order under their keys but for the identity keys, the opaque name at model, each string redacted |
| BlindMeaning.BlindedUnique | packages/arena-proxy/src/blind-response.ts:23-42 | Only one payload relates to the original in that way |
| BlindMeaning.LineMeaning | packages/arena-proxy/src/blind-response.ts:44-58 | A data line that parses is its prefix and the text of the one payload so related to the parsed one; one that does not parse is redacted as a text; any other line, and [DONE], passes |
| BlindMeaning.BlindedLine | packages/arena-proxy/src/blind-response.ts:44-58 | With compatible names that payload is also clean, and the redacted line free of every variant |
| BlindMeaning.CleanLinePasses | packages/arena-proxy/src/blind-response.ts:44-58 | A line whose payload is clean and spelt as JSON.stringify spells it, or that does not parse and is free of variants, passes unchanged |
| BlindMeaning.MatchDataIff | packages/arena-proxy/src/blind-response.ts:49-49 | A line carries data if and only if it is spaces, data:, spaces and a rest without line terminators; the first group is that prefix and the second does not begin with a space |
| BlindMeaning.BatchOnLines | packages/arena-proxy/src/blind-response.ts:86-98 | On any lines with their LF or CRLF ends and a rest, the output is each line transformed with its end as it is, and the rest is held back |
| BlindMeaning.WholeOnLines | packages/arena-proxy/src/blind-response.ts:77-98 | At the end a rest that is not empty is transformed too |
| BlindPayload.MatchDataSplits | packages/arena-proxy/src/blind-response.ts:49-49 | The two groups of the expression put together are the line |
| BlindPayload.ChunksDoNotMatter | packages/arena-proxy/src/blind-response.ts:71-98 | For every cutting of a text into chunks, output and buffered rest are those of the whole text |
| BlindPayload.CutAnywhere | packages/arena-proxy/src/blind-response.ts:86-97 | Completing a + b is completing a, then its rest followed by b |
| BlindPayload.TerminatorsPreserved | packages/arena-proxy/src/blind-response.ts:91-95 | With the identity on lines the transform is the identity: LF and CRLF terminators and the rest are preserved |
| BlindPayload.BlindedSseTransform.Transform | packages/arena-proxy/src/blind-response.ts:71-75 | After a chunk, exactly the complete lines of everything taken so far are out and the rest is held back |
| BlindPayload.BlindedSseTransform.Flush | packages/arena-proxy/src/blind-response.ts:77-84 | At the end the output is the batch transform of the whole text |
| BlindPayload.BlindedSseTransform.FlushCompleteLines | packages/arena-proxy/src/blind-response.ts:86-98 | The loop terminates and pushes the transformed complete lines |
| BlindPayload.BlindedSseTransform.Stream | packages/arena-proxy/src/blind-response.ts:71-98 | Any chunks give the batch transform of their concatenation |
| ClientRuns.WaitersSettleOnce | packages/client/src/daemon-client.ts:5898-5969 | In every run, listeners calling back included: a waiter is in the set iff unsettled, is settled at most once without relying on the settled flag, has an armed timer iff it is in the set and was given one, and if resolved got the first message it accepts since its registration |
| ClientRuns.SendsSettleOnce | packages/client/src/daemon-client.ts:1572-1636 | In every run: a send is in the queue iff unsettled, settles at most once, has a timer iff queued; queued sends reach the wire in call order |
| ClientInvariant.NextInv | packages/client/src/daemon-client.ts:5592-5664 | The invariant of the client (waiters, sends, connect promises, listener stack) is kept by every call, timer, event and returning listener |
| ClientInvariant.RunInv | packages/client/src/daemon-client.ts:5592-5664 | And holds in every run |
| ClientInvariant.ScheduleInv | packages/client/src/daemon-client.ts:5629-5664 | scheduleReconnect keeps the invariant and leaves waiters and queue empty |
| ClientInvariant.DisposeInv | packages/client/src/daemon-client.ts:1325-1355 | close keeps the invariant and leaves waiters and queue empty |
| ClientRuns.LossSettlesAll | packages/client/src/daemon-client.ts:5629-5664 | Whichever step enters disconnected or disposed, every waiter and every send ever made is settled then |
| ClientRuns.QueueOkLostIff | packages/client/src/daemon-client.ts:5749-5757 | The queue is non-empty only while connecting or before the flush behind connected; a step ends this if and only if a resubscription throws there with a non-empty queue |
| ClientRuns.QueueOnlyWhileConnecting | packages/client/src/daemon-client.ts:1582-1594 | In every run without such a throw the queue is non-empty only then |
| ClientRuns.DisposedIsAbsorbing | packages/client/src/daemon-client.ts:1325-1355 | After close no step leaves disposed, makes a transport, settles a connect promise or puts anything on the wire |
| ClientRuns.DisposedForever | packages/client/src/daemon-client.ts:1325-1355 | The same over all runs from a disposed client |
| ClientRuns.WireOrderLostIff | packages/client/src/daemon-client.ts:1576-1580 | The wire stays in call order until, and only until, a message is sent at once while others are still queued |
| ClientReconnect.OvertakingReachable | packages/client/src/daemon-client.ts:5752-5757 | A reachable state in which a listener or a resubscription can overtake the queue, and in which a throw strands it |
| ClientReconnect.BackoffLostIff | packages/client/src/daemon-client.ts:1131-1150 | The reconnect timer is armed only while disconnected; a step ends this if and only if connect succeeds in starting an attempt with the timer armed, or the timer is armed behind a listener that has connected or failed to |
| ClientReconnect.ArmedOnlyWhenDisconnected | packages/client/src/daemon-client.ts:5683-5696 | In every run without such a step the timer is armed only while disconnected |
| ClientReconnect.LateTimerReachable | packages/client/src/daemon-client.ts:1131-1150 | connect() during the backoff reaches such a state |
| ClientReconnect.PromiseLostIff | packages/client/src/daemon-client.ts:1138-1147 | A pending connect promise is left unsettled for ever by a step if and only if the step is close or makes a second promise |
| ClientReconnect.OutsideListenersOnlyCloseLoses | packages/client/src/daemon-client.ts:1329-1332 | Outside listeners only close loses a pending promise |
| ClientReconnect.LostPromiseReachable | packages/client/src/daemon-client.ts:1329-1332 | close() while connecting loses one |
| ClientReconnect.ThrowingFactorySticksIff | packages/client/src/daemon-client.ts:1143-1147 | When the transport factory throws inside connect, connect keeps the promise it has just rejected; the client is stuck if and only if reconnecting is disabled |
| ClientReconnect.StuckForever | packages/client/src/daemon-client.ts:1138-1140 | A stuck client never makes a transport again, whatever is called or happens, short of close |
| ClientReconnect.StuckReachable | packages/client/src/daemon-client.ts:1294-1304 | A stuck client is reachable |
| ClientWaits.ResolveInv | packages/client/src/daemon-client.ts:5804-5815 | resolveWaiters keeps the waiter invariant and takes exactly the waiters that accept the message out of the set |
| ClientWaits.RejectInv | packages/client/src/daemon-client.ts:5817-5838 | Clearing empties the set; rejecting for a request takes out exactly its waiters |
| ClientSends.FlushExact | packages/client/src/daemon-client.ts:1605-1623 | The flush settles the queue in call order, each message sent or refused, and empties it |
| ClientLaws.TimerRejects | packages/client/src/daemon-client.ts:5923-5931 | With the timer armed and nothing running, the timer event rejects its waiter with the timeout, takes it out of set and timers, and leaves every other; not armed, nothing changes |
| ClientLaws.CancelRejects | packages/client/src/daemon-client.ts:5943-5966 | Cancel rejects an unsettled waiter in the same exact way at any time, and does nothing to a settled one |
| ClientLaws.WaitForAdds | packages/client/src/daemon-client.ts:5898-5941 | A new waiter is in the set with its predicate, unsettled, its timer armed if asked for, everybody else as before |
| ClientLaws.InvalidRejects | packages/client/src/daemon-client.ts:5817-5828 | An invalid response rejects exactly the waiters for its request, in call order |
| ClientLaws.HandlersDone | packages/client/src/daemon-client.ts:5804-5815 | Behind the listeners a message resolves exactly the waiters that accept it, with what they make of it, in call order; a listener that throws keeps it from them |
| ClientLaws.WaitsFollow | packages/client/src/daemon-client.ts:5898-5969 | Under the invariant the settlements determine who is in the set and whose timer runs |
| ClientLaws.SendGoes | packages/client/src/daemon-client.ts:1572-1600 | A send is on the wire or refused in the call when connected, at the end of the queue with a timer when connecting, refused otherwise |
| ClientLaws.SendTimerRefuses | packages/client/src/daemon-client.ts:1585-1592 | The timer of a queued send refuses exactly that send and takes it out of the queue |
| ClientLaws.FatalLoses | packages/client/src/daemon-client.ts:1213-1304 | A timeout, close, specific error, failed hello, or lost probe rejects every waiter and refuses every queued send, in order, clears the known reconnect timer, and leaves the client disconnected with its listeners to tell |
| ClientLaws.OtherwiseQuiet | packages/client/src/daemon-client.ts:1213-1292 | Any other timer or transport event only sets or clears those timers |
| ClientLaws.ConnectOpens | packages/client/src/daemon-client.ts:1131-1211 | connect on a client without connection or promise makes one transport and is connecting, or, if the factory throws, loses the connection in the same exact way; otherwise it changes nothing |
| ClientLaws.ReconnectOpens | packages/client/src/daemon-client.ts:5689-5695 | The reconnect timer opens a transport without a promise if reconnecting is allowed; a cleared one does nothing |
| ClientLaws.CloseAbandons | packages/client/src/daemon-client.ts:1325-1355 | close rejects every waiter, refuses every queued send, drops transport and timers, and forgets the connect promise |
| ClientLaws.ConnectedDone | packages/client/src/daemon-client.ts:5753-5760 | Behind the listeners of connected the queue is sent in order and the connect promise resolved; a throw skips both |
| ClientLaws.DisconnectedDone | packages/client/src/daemon-client.ts:5657-5664 | Behind the listeners of disconnected a reconnect timer is armed if allowed and enabled; otherwise the connect promise is rejected |
| ClientLaws.GreetingConnects | packages/client/src/daemon-client.ts:5742-5801 | The first server info on a connecting client connects it, sends the whole queue, resolves the connect promise and resolves the waiters that accept the message |
| ClientLaws.ConnectSucceeds | packages/client/src/daemon-client.ts:1131-1211 | connect on any idle or disconnected client without a promise, the transport opened and the server answering, ends connected on a new transport with the promise resolved |
| ClientLaws.LossIsRepaired | packages/client/src/daemon-client.ts:5629-5696 | With reconnecting enabled a lost connection arms a timer, and when that fires and the server answers the client is connected on a new transport |
| DaemonClients.DaemonClient.WaitForWithCancel | packages/client/src/daemon-client.ts:5898-5941 | The waiter is added, with a timer if the timeout is positive |
| DaemonClients.DaemonClient.WaiterTimedOut | packages/client/src/daemon-client.ts:5923-5931 | Stated on the fields: with its timer armed the waiter is rejected once and leaves set and timers, the others stay; otherwise nothing changes |
| DaemonClients.DaemonClient.Cancel | packages/client/src/daemon-client.ts:5943-5966 | Stated on the fields: an unsettled waiter is rejected once and leaves set and timers, the others stay; a settled one is left |
| DaemonClients.DaemonClient.ResolveWaiters | packages/client/src/daemon-client.ts:5804-5815 | The loop over a copy of the set is the resolve function |
| DaemonClients.DaemonClient.RejectWaitersForRequestId | packages/client/src/daemon-client.ts:5817-5828 | The loop that skips other requests is the reject function |
| DaemonClients.DaemonClient.ClearWaiters | packages/client/src/daemon-client.ts:5830-5838 | Rejects all, then empties the set at once |
| DaemonClients.DaemonClient.SendSessionMessageOrThrow | packages/client/src/daemon-client.ts:1572-1600 | Sent, queued or refused by status |
| DaemonClients.DaemonClient.SendTimedOut | packages/client/src/daemon-client.ts:1585-1592 | Stated on the fields: findIndex and splice take out exactly the timed-out send, which is refused |
| DaemonClients.DaemonClient.FlushPendingSendQueue | packages/client/src/daemon-client.ts:1605-1623 | The loop over the taken-away queue is the flush function |
| DaemonClients.DaemonClient.RejectPendingSendQueue | packages/client/src/daemon-client.ts:1628-1636 | The loop refuses every queued send |
| DaemonClients.DaemonClient.ScheduleReconnection | packages/client/src/daemon-client.ts:5629-5661 | Up to the listeners: timer cleared, everything rejected, disconnected; on a disposed client the promise is rejected |
| DaemonClients.DaemonClient.Attempt | packages/client/src/daemon-client.ts:1152-1211 | Up to the listeners: refusals, old transport disposed, new one made, or the catch block |
| DaemonClients.DaemonClient.ConnectClient | packages/client/src/daemon-client.ts:1131-1150 | The connect step of the model; throws exactly on a disposed client |
| DaemonClients.DaemonClient.CloseClient | packages/client/src/daemon-client.ts:1325-1355 | The close step of the model; nothing waits or queues afterwards |
| DaemonClients.DaemonClient.HandleSessionMessage | packages/client/src/daemon-client.ts:5742-5752 | Up to the listeners: a server info while connecting connects |
| DaemonClients.DaemonClient.ReturnFromListeners | packages/client/src/daemon-client.ts:5753-5801 | What follows each kind of listener: timers armed, queue flushed, promise settled, waiters resolved |
| SnapshotCodec.RoundTripIff | packages/protocol/src/provider-snapshot-codec.ts:69-119 | expand(compact(x)) = x if and only if every model names its entry's provider |
| SnapshotCodec.RoundTrip | packages/protocol/src/provider-snapshot-codec.ts:69-119 | For all x expansion does not throw and gives x with each model's provider replaced by its entry's |
| SnapshotCodec.CompactAgain | packages/protocol/src/provider-snapshot-codec.ts:69-119 | compact(expand(compact(x))) = compact(x) for all x |
| SnapshotCodec.ExpandedIsStable | packages/protocol/src/provider-snapshot-codec.ts:84-119 | Any snapshot that expands, from the wire or not, survives the next round trip unchanged |
| SnapshotCodec.ExpandThrowsIff | packages/protocol/src/provider-snapshot-codec.ts:94-97 | Expansion throws if and only if some index is out of range, and names such an index |
| SnapshotCodec.FirstMissingNamed | packages/protocol/src/provider-snapshot-codec.ts:94-97 | The index that is named is the first out of range in the order of the models |
| SnapshotCodec.EntriesExpand | packages/protocol/src/provider-snapshot-codec.ts:84-119 | Any wire snapshot that expands: entry by entry and model by model, its own fields, the entry's provider, the options of the set referred to, and the set's default before the model's own |
| SnapshotCodec.EntriesCompact | packages/protocol/src/provider-snapshot-codec.ts:32-82 | On the wire each model has its own fields and, in place of options and default, the index at which the table holds exactly those |
| SnapshotCodec.EmittedInRange | packages/protocol/src/provider-snapshot-codec.ts:62-66 | Every emitted index is in range |
| SnapshotCodec.TableIsFirstUses | packages/protocol/src/provider-snapshot-codec.ts:51-66 | The table is the list of first uses of the sets, in order |
| SnapshotCodec.TableIsExact | packages/protocol/src/provider-snapshot-codec.ts:51-66 | It is duplicate-free and holds exactly the sets in use |
| SnapshotCodec.EarlierStays | packages/protocol/src/provider-snapshot-codec.ts:56-66 | Appending entries leaves the compacted entries and the table before them as they are |
| SnapshotCodec.KeyInjective | packages/protocol/src/provider-snapshot-codec.ts:28-30 | Two thinking sets have the same key if and only if they are equal |
| JsonText.StringifyInjective | packages/protocol/src/provider-snapshot-codec.ts:28-30 | JSON.stringify is injective on JSON values with integer numbers |
| JsonText.EscapeSpells | packages/protocol/src/provider-snapshot-codec.ts:28-30 | Each character of a string is spelt as section 7 of RFC 8259 has it: the short escape where there is one, the hexadecimal one for the other control characters, and otherwise plain |
| JsonText.StringifyUnambiguous | packages/protocol/src/provider-snapshot-codec.ts:28-30 | A value and what follows it can be read back from a text in only one way |
| SnapshotCodec.Compactor.CompactOneModel | packages/protocol/src/provider-snapshot-codec.ts:32-67 | With the index map in step with the table, one model is compacted and at most one set pushed |
| SnapshotCodec.Compactor.CompactAllModels | packages/protocol/src/provider-snapshot-codec.ts:78-78 | The map over the models threads the table |
| SnapshotCodec.Compactor.CompactSnapshot | packages/protocol/src/provider-snapshot-codec.ts:69-82 | The whole snapshot is the compact function's |
| Highlighter.HighlightCode | packages/highlight/src/highlighter.ts:7-64 | For every text and spans, each line gets tokens that spell it, every character in the style of the last span covering it, neighbours differing in style, only empty lines with an empty token |
| Highlighter.HighlightUnique | packages/highlight/src/highlighter.ts:31-61 | No other result does so |
| Highlighter.TokenisationUnique | packages/highlight/src/highlighter.ts:42-58 | A line has one such tokenisation |
| Highlighter.HighlightedTextIsTheCode | packages/highlight/src/highlighter.ts:15-63 | The tokens joined line by line are the text |
| Highlighter.LineAt | packages/highlight/src/highlighter.ts:32-60 | Line k stands in the text at the position the loop counts |
| Highlighter.StyleAtIsLast | packages/highlight/src/highlighter.ts:25-29 | The style of a position is that of the last span covering it, none if no span does |
| Highlighter.FillStyles | packages/highlight/src/highlighter.ts:23-29 | The in-place loops leave at each position the style of the last span covering it |
| Highlighter.TokeniseLine | packages/highlight/src/highlighter.ts:36-58 | The loop over a line builds its tokenisation |
| Highlighter.TokeniseLines | packages/highlight/src/highlighter.ts:32-61 | The loop over the lines tokenises each at its position |
| Highlighter.PlainLines | packages/highlight/src/highlighter.ts:10-12 | Without a parser a line is one plain token, which is the tokenisation without spans |

## Left out

- BlindedTextIsFree: goes one way; CompatibleIff has the converse for one variant without a border, and for the others only the parts in ContainingLeaks and EndLeaks are necessary in general.
- RunDelivery: assumes that no flush throws on a buffered frame; RunRouting says what holds without that, and BuffersLostIff, ThrowReorders and FlushConservesIff what does not.
- Cryptography (tweetnacl, key generation, HMAC, timing-safe compare) and the internals of base64-js and of UTF-8 decoding: functions with laws, or for base64 the codec of RFC 4648 written directly.
- base64-js reads characters outside the alphabet as zero bits, where the codec here fails; only the fallback of the legacy receive mode for binary frames is reached differently.
- Strings are sequences of Unicode scalar values: lone surrogates, and lengths in UTF-16 units, are not modelled.
- HTTP, WebSocket and file I/O, Cloudflare's upgrade plumbing, authorization headers, the choice of the two models of a battle, and forwarding to OpenRouter: results are parameters.
- Relay protocol version 1, the JSON keepalive, and the times of the nudge timers.
- The relay's sends on a socket that is closing are taken to fail; sends to a usable socket fail or not, arbitrarily.
- Wide and combining characters, scroll regions, and erasing with the background colour when autowrap scrolls: the interpreter scrolls in blank default lines.
- JavaScript's number limits: flags, lengths and positions are natural numbers.
- Objects with a `__proto__` key, and the order JavaScript gives to integer-like keys.
- JSON numbers other than integers in the keys of the snapshot codec; the blinding transform takes JSON.parse and JSON.stringify as arbitrary functions.
- The Lezer parsers: the highlighter takes their spans as input, and a span starts at a natural number.
- The hundred-odd RPC wrappers, liveness probes, subscriptions, tracing and schema validation of the daemon client: a lost liveness probe is an event, waiters' predicates are total functions, and a resubscription is a call made before the flush.
- The chained promises of withMutation are modelled by who waits for whom; that a promise resolves in its own microtask is not.
- In the classes, waiters, sends, promises and timers are numbers rather than objects, and sockets are values in a list.
- The delays of timers, the backoff of the reconnect timer, and the texts of the daemon client's errors beyond their kind.
