# Cairn, verified in Dafny

Cairn runs coding agents on installations and lets browsers follow and steer them, directly or through a beacon that
relays requests. Its guarantees rest on a dozen small protocols whose difficulty is in interleavings, crashes and
replays. This project models those protocols and proves what they are for, over every run.

Each protocol is a step system or a specification of a data structure: a database transaction, a synchronous turn of
the browser's event loop, or a section under one lock is one step. Where the program updates an object in place, a
class with the same fields and loops is proved to take exactly these steps.

| files | protocol |
|---|---|
| `fragments`, `direct_channel`, `direct_progress`, `direct_channel_object` | fragmenting frames over the direct channel and reassembling them |
| `replay` | falling back from the direct channel to the relay |
| `relay`, `relay_races`, `relay_streams`, `relay_object` | access changes racing requests in the relay |
| `live_feed`, `live_rows`, `live_run`, `live_replication`, `live_window`, `live_objects`, `history_cache` | following a run's event log over a connection that comes and goes |
| `claude_turn`, `claude_deliveries`, `claude_turn_object`, `cli_lines` | a Claude Code turn: deliveries, background work, receipts, and reading its output |
| `codex_history`, `codex_items`, `codex_thread`, `codex_chat` | resuming a Codex conversation without submitting anything twice |
| `chats`, `chats_rows`, `chats_object` | a chat's message queue |
| `updater`, `node_supervisor` | the crash-journaled image supervisors of installations and nodes |
| `utf8`, `packer`, `titles` | summarising a conversation of any length for its title |
| `oauth`, `oauth_redemption`, `oauth_store` | authorisation codes, refresh rotation and token families |
| `limiter` | the request limiter |

`dafny verify dfyconfig.toml` checks everything.

## Findings

Some properties one would expect hold only on a condition. For each there is a concrete run or input on which it fails,
and a statement of when it holds.

- **Relay.** `revoke_access(installation, None)`, which ends detach, forget and token rotation, takes the tunnel out of
  the registry first and stops it afterwards (crates/beacon/src/relay.rs:171-216). In between, the tunnel is an orphan:
  a member removal, a logout or another revocation that looks it up finds nothing and returns, and a request queued on
  the orphan is still dispatched (`RelayRaces.RemovalRace`, `RelayRaces.LogoutRace`, `RelayRaces.RotationRace`).
  Orphans are the only exception (`RelayRaces.RemovalLeavesOrphans`, `RelayRaces.LogoutLeavesOrphans`,
  `RelayRaces.RevocationLeavesOrphans`).
- **Chat queue.** Between picking a message and launching its turn, withdrawing it and sending it again with the same
  content moves its row to the end, and the launch goes ahead (`Chats.OvertakingHappens`). Older pending messages are
  passed over exactly when this has happened while one of them was waiting (`Chats.LaunchTakesTheOldestIff`).
- **Windowed streams.** A stream opened with a window starts from the events no later snapshot supersedes
  (crates/installation/src/store.rs:672-682), so a message stands where it was last changed, under that time, and not
  where it began (`LiveWindow.WindowsReorder`). `LiveWindow.WindowShowsTheLogIff` says exactly when the rows are
  nevertheless those of the whole log, and `LiveWindow.PageIsTheRowsIff` says it of the opening page alone.
- **Codex items.** Items that return to an earlier turn misplace the next turn the listing lacks
  (`CodexHistory.ScatteredItemsMisplace`). `CodexHistory.TurnsComeBackInOrderIff` says exactly when turns come back in
  order.
- **Node updates.** When neither the candidate nor the previous image starts, the node keeps its committed image on
  disk but no longer runs it, with no acknowledgement due; rounds that approve the committed image do not repair that,
  only another update or a restart does (`NodeSupervisor.Stranded`). `NodeSupervisor.Node.Update` says exactly when this
  happens.
- **Title summaries.** The loop ends only because summaries with control characters are rejected
  (`Titles.UnvalidatedNeverShrink`).
- **Limiter.** Its bound over any interval is better than the one promised, by one, and is met
  (`Limiter.LessThanTwiceTheMaximum`, `Limiter.BoundIsMet`).

## Assumptions

- The data channel is reliable and in order, and a transfer identifier is not handed out again while a transfer holds
  it (`DirectChannel.IdsRecur` says when it would recur).
- Within one history the event log only grows, with increasing identifiers; agent messages carry their text, and turn
  starts carry none (crates/installation/src/chat_process.rs:357).
- Deleting a grant deletes its tokens and its code, as the foreign keys in crates/beacon/migrations declare; random
  values are fresh.
- A lease request is not carried out after its call has timed out.
- A Codex execution's requests are settled before the next execution reads the thread's history.
- Rows of a chat are ordered by the time they were accepted, which does not go back.

## Model

| member | source | states |
|---|---|---|
| `Fragments.ParsePacket` | apps/web/src/direct-channel.ts:186-193 | Parsing the bytes of a packet gives back its identifier, total, offset and payload, for every header a sender can write |
| `Fragments.BytesAreTransparent` | apps/web/src/direct-channel.ts:282-289 | Receiving a list of packets as bytes has exactly the effect of receiving their headers, for both receivers |
| `Fragments.LaggingReceiver` | apps/web/src/direct-channel.ts:278-331 | A receiver that has seen only a prefix of the packets is healthy if the full one is, and has a prefix of its frames |
| `DirectChannel.IdsRecur` | apps/web/src/direct-channel.ts:147 | Two sends share a transfer identifier if and only if a multiple of 2^32 - 1 sends lies between them |
| `DirectChannel.EveryRun` | apps/web/src/direct-channel.ts:143-211 | Every turn of every interleaving, a close just before a packet goes out included, keeps the byte budget, the transfer limit and the mirror between the sender's transfers and the receiver's assemblies |
| `DirectChannel.DeliversExactlyTheCompleted` | apps/web/src/direct-channel.ts:143-211 | For every interleaving of sends, abandons and failures and any delivery lag, neither receiver rejects a packet, and the frames assembled are exactly the completed payloads, byte for byte, once each, in order |
| `DirectChannel.PeersAgree` | crates/protocol/src/data_channel.rs:191-300 | The browser's and the installation's receivers, which count their budgets differently, accept the same traffic with the same effect |
| `DirectChannel.NotSentIsNeverTransmitted` | apps/web/src/direct-channel.ts:82-101 | A request settled as not sent never has its last fragment transmitted, before or after it is settled |
| `DirectChannel.SettledForGood` | apps/web/src/direct-channel.ts:103-110 | A settled request stays settled the same way over every run |
| `DirectChannelObject.Connection.Send` | apps/web/src/direct-channel.ts:143-147 | Starting a send takes the next identifier and suspends, or refuses an oversized frame; exactly one step of the state machine |
| `DirectChannelObject.Connection.TryReserve` | apps/web/src/direct-channel.ts:148-166 | A transfer is reserved exactly when both budgets allow it |
| `DirectChannelObject.Connection.WriteNext` | apps/web/src/direct-channel.ts:168-199 | One writer operation sends exactly the next fragment, or abandons a transfer nobody wants any more |
| `DirectChannelObject.Connection.ReleaseTransfer` | apps/web/src/direct-channel.ts:205-210 | The reservation of a finished transfer is given back, and no other |
| `DirectChannelObject.Connection.Shut` | apps/web/src/direct-channel.ts:82-101 | Closing settles every pending request as lost or not sent by whether it was wholly transmitted, and drops the assemblies |
| `DirectChannelObject.Connection.Take` | apps/web/src/direct-channel.ts:278-331 | Receiving a packet rejects, stores or completes exactly as the receiver model says |
| `DirectChannelObject.SettlePending` | apps/web/src/direct-channel.ts:88-94 | The closing loop settles each pending request once and keeps what was settled |
| `DirectChannelObject.Concatenate` | apps/web/src/direct-channel.ts:321-326 | The assembled frame is the concatenation of its chunks in order |
| `Fragments.AcceptedFragmentsFit` | crates/protocol/src/data_channel.rs:225-300 | A fragment is accepted only if it begins a frame under an unused identifier or goes on exactly where its frame stands, within the size declared |
| `Fragments.ReceiversStayBounded` | crates/protocol/src/data_channel.rs:191-300 | Whatever packets arrive, a receiver holds at most 32 unfinished frames within its limit, and no frame exceeds its own |
| `DirectProgress.RequestsAreTaken` | apps/web/src/direct-channel.ts:213-222 | A request is taken exactly if the channel is usable and holds fewer than 32 requests, 8 of them streams; otherwise it is settled as not sent |
| `DirectProgress.WritesTheNextFragment` | apps/web/src/direct-channel.ts:168-199 | The writer adds exactly the next fragment, up to 16,371 bytes, of a frame whose request is pending or that has none, and changes nothing else but, with the last fragment, the completion and the sent mark |
| `DirectProgress.WritesComplete` | apps/web/src/direct-channel.ts:168-199 | As many writes as there are fragments left complete the payload and mark its request as sent |
| `DirectProgress.WritingStopsIff` | apps/web/src/direct-channel.ts:172-182 | A write stops a frame exactly if its request is no longer pending, and abandons it at the receiver if it has any of it |
| `DirectProgress.OnlySettledFramesStop` | apps/web/src/direct-channel.ts:172-182 | In every reachable usable channel, a stopped frame belongs to a settled request |
| `DirectProgress.EveryFrameCanGoOut` | apps/web/src/direct-channel.ts:143-211 | In every reachable usable channel some continuation without new requests transmits the frame of any pending request, whatever is ahead of it |
| `DirectProgress.FailuresTellTheTruth` | apps/web/src/direct-channel.ts:82-101 | A close or a timeout reports a request as not sent exactly if it has not been wholly transmitted, in every reachable state |
| `DirectProgress.RequestsSettleAs` | apps/web/src/direct-channel.ts:222-270 | Answers, refusals and aborts settle a request as such and touch no other |
| `Replay.EveryRunSendsOnce` | apps/web/src/direct-channel.ts:260-275 | At most one frame of a request is ever on its way or complete, over every run |
| `Replay.MutationsAreExecutedOnce` | apps/web/src/installation-transport.ts:370-394 | Over both routes together a mutation is dispatched at most once in every reachable state |
| `Replay.UnsentIsDispatchedOnce` | apps/web/src/installation-transport.ts:379-383 | A request that was not sent or was refused is dispatched exactly once over both routes together, a read whose connection was lost twice, a lost mutation once, and nothing else over the relay |
| `Replay.IdentifiedMessagesTwiceIffLost` | apps/web/src/installation-transport.ts:377-390 | A message with its own identifier is dispatched twice exactly if its connection was lost after it had been transmitted and before its response started, and otherwise at most once |
| `Relay.EveryRun` | crates/beacon/src/relay.rs:367-386 | The registry, tunnel, stream, removal, revocation and logout invariants hold over every interleaving of all actors |
| `RelayRaces.RemovedMembersAreShutOut` | crates/beacon/src/relay.rs:171-216 | After a member's removal has returned, a request that took its generation before the revocation, admitted or not, passes the dispatch check only on a tunnel that a revocation has taken out of the registry and not stopped yet, even with replaced tunnels and repeated invitations |
| `RelayRaces.OnlyNewRolesPass` | crates/beacon/src/relay.rs:811-830 | Any other request of that member that passes was admitted after the removal had committed, and only because the member had been given a role again |
| `RelayRaces.DispatchesIffUnhindered` | crates/beacon/src/relay.rs:70-82 | In every reachable state, some continuation dispatches a request under way if and only if its tunnel has not stopped, its generation still is the account's, and its session and stream are alive |
| `RelayRaces.RemovalLeavesOrphans` | crates/beacon/src/sharing.rs:316-336 | Once a removal has returned, some continuation dispatches such an earlier request if and only if its tunnel is an orphan and nothing else hinders it |
| `RelayRaces.RemovalRace` | crates/beacon/src/relay.rs:601-619 | A reachable run in which a removed member's queued request is still dispatched |
| `RelayRaces.RevokedIdentitiesDispatchNothing` | crates/beacon/src/installations.rs:225-238 | After a detach, forget or token rotation has returned, no tunnel that authenticated with the revoked token dispatches, orphans of another revocation aside |
| `RelayRaces.RevocationLeavesOrphans` | crates/beacon/src/relay.rs:171-182 | Once a revocation has returned, some continuation dispatches a request on a tunnel with its token if and only if the tunnel is an orphan and nothing hinders the request |
| `RelayRaces.RotationRace` | crates/beacon/src/installations.rs:341-360 | A reachable run in which a tunnel with a rotated token still dispatches after its rotation has returned |
| `RelayRaces.LoggedOutStreamsAreSilent` | crates/beacon/src/lib.rs:828-862 | After a logout has returned, every stream of its session is revoked, unopened, or on an orphan |
| `RelayRaces.LogoutLeavesOrphans` | crates/beacon/src/relay.rs:126-158 | Once a logout has returned, some continuation dispatches a stream of its session if and only if the stream is on an orphan and nothing hinders it |
| `RelayRaces.LogoutRace` | crates/beacon/src/relay.rs:1208-1228 | A reachable run in which a stream of a logged-out session is still dispatched |
| `RelayRaces.RegisteredTunnelsStay` | crates/beacon/src/relay.rs:794-803 | Over every run a registered tunnel stays registered until it is replaced, revoked, shut down or ends itself; no other connection's end removes it |
| `RelayStreams.StreamIsOpenIff` | crates/beacon/src/relay.rs:183-211 | Over every run, a stream is open exactly if it was opened and since then its account was not removed from the tunnel, its session did not end, its own check did not fail, and it was not dropped |
| `RelayStreams.OthersAreSpared` | crates/beacon/src/relay.rs:203-209 | A stream closes at a removal only if its request has the account removed, at a logout only if its request has that session, and otherwise only by its own check or drop |
| `RelayStreams.GenerationsCountRemovals` | crates/beacon/src/relay.rs:186-187 | Over every run, an account's generation on a tunnel is the number of its removals that held the tunnel |
| `RelayStreams.StopNext` | crates/beacon/src/relay.rs:160-182 | A tunnel stops exactly by a revocation that took it, its replacement, a failed recheck, its own end or a shutdown |
| `RelayStreams.RegisteredNext` | crates/beacon/src/relay.rs:367-376 | A tunnel is registered exactly from its own registration until a revocation of its installation, its replacement, its end or a shutdown |
| `RelayObject.Tunnel.Snapshot` | crates/beacon/src/relay.rs:821-829 | The generation remembered is current, so it is refused only once something changes |
| `RelayObject.Tunnel.AccessRevoked` | crates/beacon/src/relay.rs:70-82 | Access is revoked exactly if the generation moved on or the tunnel stopped |
| `RelayObject.Tunnel.RevokeAccount` | crates/beacon/src/relay.rs:183-211 | Revoking an account bars every generation of it handed out so far and closes exactly its streams; other accounts keep their generations and streams |
| `RelayObject.Tunnel.RevokeSession` | crates/beacon/src/relay.rs:128-132 | Revoking a session closes exactly its streams and bars no generation |
| `RelayObject.Tunnel.Open` | crates/beacon/src/relay.rs:1178-1197 | The last access check and the registration of a stream are one step |
| `RelayObject.Tunnel.Drop` | crates/beacon/src/relay.rs:1338-1345 | Dropping a browser stream closes it |
| `RelayObject.CloseStreams` | crates/beacon/src/relay.rs:203-209 | The loop marks exactly the matching streams revoked |
| `RelayObject.Relay.Register` | crates/beacon/src/relay.rs:367-376 | A tunnel replaces the registered one, which is stopped under the same lock, unless the server is closing |
| `RelayObject.Relay.Unregister` | crates/beacon/src/relay.rs:796-803 | Only the tunnel's own entry is removed |
| `RelayObject.Relay.LookUp` | crates/beacon/src/relay.rs:172-182 | Without an account the tunnel leaves the registry when it is looked up |
| `RelayObject.Relay.RevokeAccess` | crates/beacon/src/relay.rs:171-216 | Uninterrupted, it bars one account or stops the tunnel, and touches no other tunnel |
| `RelayObject.Relay.RevokeSession` | crates/beacon/src/relay.rs:126-158 | Every registered tunnel loses the session's streams |
| `RelayObject.Relay.Shutdown` | crates/beacon/src/relay.rs:160-167 | Every registered tunnel is stopped and the registry is empty |
| `LiveFeed.WireIsTransparent` | crates/installation/src/live_text.rs:10-45 | Receiving the delta-compressed events folds exactly the original snapshots, and keeps every baseline the encoder may use |
| `LiveFeed.ReplaySkips` | apps/web/src/live-events.ts:31-33 | Events at or before the cursor change nothing |
| `LiveFeed.ReplayIsHarmless` | apps/web/src/live-events.ts:30-63 | A connection that starts earlier than the client stands is either refused or leaves exactly the fold up to its last event |
| `LiveRows.FoldIsRows` | apps/web/src/live-events.ts:30-63 | The fold computes exactly one row per event or per message and turn, at its first appearance, with its last snapshot and its first time |
| `LiveRows.RowsAreDetermined` | apps/web/src/live-events.ts:53-61 | That description fixes the rows uniquely |
| `LiveReplication.EveryRun` | apps/web/src/live-connection.ts:9-99 | Connection, view and server subscription stay linked over every run of connects, drops, batches and refusals |
| `LiveReplication.ShownIsOneFold` | apps/web/src/use-live-run.ts:249-298 | After each final batch the rows shown are one fold of the log up to the cursor, from the origin the view records |
| `LiveReplication.ShownIsTheLog` | apps/web/src/use-live-run.ts:276-297 | A view that started from nothing shows exactly the rows of the log up to its cursor: nothing lost, doubled or reordered |
| `LiveReplication.UnwindowedOrigins` | crates/installation/src/live.rs:154-167 | Without a window, rows are only ever built from nothing or from the cache |
| `LiveReplication.FinalBatchesHoldEverything` | crates/installation/src/live.rs:185-193 | A batch without more to come leaves the view at the last event the server had; without a window it has then folded every one |
| `LiveReplication.IntactBatchesAreAccepted` | crates/installation/src/live.rs:321-361 | No intact batch is ever refused for a missing baseline, whatever came before |
| `LiveReplication.BatchesAreHandled` | apps/web/src/live-connection.ts:58-94 | Unreadable data, a server without history, a refused batch and an accepted one each have exactly the effect stated on cursor, history and view |
| `LiveReplication.ShownChangesWhenComplete` | apps/web/src/use-live-run.ts:289-297 | What is on screen changes only in a step that leaves the view complete, and then to the rows folded |
| `LiveReplication.PagesGoOn` | crates/installation/src/live.rs:143-167 | A page of the history the view follows is no reset and goes on exactly where the view stands |
| `LiveReplication.VisitsComplete` | apps/web/src/live-connection.ts:40-99 | Connecting and receiving one page gives a complete view of a log of one event, with or without a window |
| `LiveReplication.RecentIsFresh` | crates/installation/src/store.rs:672-713 | The page a windowed stream opens with is in order and ends with the log |
| `LiveWindow.WindowedRows` | apps/web/src/use-live-run.ts:249-298 | In every reachable complete view of a windowed stream the rows are those of the events not superseded that it opened with, followed by all later ones; right after opening they are that page itself |
| `LiveWindow.WindowShowsTheLogIff` | crates/installation/src/store.rs:672-713 | They are the rows of the log up to the cursor if and only if some event of each row was received, the first ones received came in the order in which the rows began, and each has the time its row began |
| `LiveWindow.ReceivedRowsIff` | apps/web/src/live-events.ts:30-63 | For any part of a log that keeps last snapshots and turn starts, its rows are those of the log if and only if that condition holds |
| `LiveWindow.PageIsTheRowsIff` | crates/installation/src/store.rs:672-713 | The opening page is the rows of its log if and only if it leaves out nothing that is not superseded, no row that began after another was last changed before it, and no row's time changed |
| `LiveWindow.MatchingPagesShowTheLog` | crates/installation/src/store.rs:672-713 | Right after opening a windowed stream shows the rows of the log exactly when its page matches the log in that sense, and if it does, in every later state too |
| `LiveWindow.CachedVisitsShowTheLogIff` | apps/web/src/use-live-run.ts:104-119 | A visit that starts from rows an earlier one kept shows the rows of what both received, and the rows of the log on the same condition |
| `LiveWindow.EverythingIsFaithful` | apps/web/src/live-events.ts:30-63 | A view that received every event meets the condition |
| `LiveWindow.WindowsReorder` | crates/installation/src/store.rs:672-682 | A message, a tool and the message again: opened with a window, the tool comes first |
| `LiveObjects.LiveEvents.Restore` | apps/web/src/live-events.ts:18-28 | The loop rebuilds the message map the model describes |
| `LiveObjects.LiveEvents.Append` | apps/web/src/live-events.ts:30-63 | The loop folds a batch as the model does, and fails exactly at a delta without its baseline |
| `LiveObjects.LiveEvents.Copy` | apps/web/src/live-events.ts:11-16 | A copy is independent and equal |
| `LiveObjects.LiveView.Accept` | apps/web/src/use-live-run.ts:262-297 | A refused batch leaves the rows as they were, or cleared if the batch restarted them |
| `LiveObjects.LiveView.OnBatch` | apps/web/src/live-connection.ts:58-94 | The connection's cursor advances exactly with accepted batches and starts over after a refusal |
| `HistoryCache.RestoreIffNothingLeaks` | apps/web/src/live-events.ts:18-28 | Restoring the rows of a log rebuilds append's message map unless the current turn was started by an agent message updated since, and an earlier message that is not in the map follows the last row to start a turn; then never |
| `HistoryCache.RestoreIsExact` | apps/web/src/live-events.ts:18-28 | It does whenever turn starts carry no agent message |
| `HistoryCache.RestoreCanAdd` | apps/web/src/live-events.ts:22-26 | Why turn starts must be plain: a log, which the installation does not write, whose restored map has one entry more |
| `HistoryCache.TrimmedRestoreIffNothingLeaks` | apps/web/src/history-cache.ts:150-173 | The same condition, exactly, for rows trimmed by id |
| `HistoryCache.TrimmedRestoreIsRestriction` | apps/web/src/history-cache.ts:164-165 | With plain turn starts, restoring trimmed rows gives exactly the restriction of the map to the rows kept, although rows are not sorted |
| `HistoryCache.CachedVisitsResume` | apps/web/src/use-live-run.ts:104-119 | A visit resumed from untrimmed cached rows goes on as if it had never ended |
| `HistoryCache.Fitting` | apps/web/src/history-cache.ts:153-160 | The budget loop keeps as many of the last rows as 200 rows and 3 MiB allow, and no fewer |
| `HistoryCache.RecentHistory` | apps/web/src/history-cache.ts:150-173 | Exactly the most recent rows by id that fit are kept, in their places |
| `HistoryCache.FoldedIdsDiffer` | apps/web/src/history-cache.ts:152 | Folded rows have distinct ids up to the cursor, so trimming applies to them |
| `ClaudeTurn.EveryRunKeeps` | crates/installation/src/claude_process.rs:402-428 | Over every run, each submitted message is pending or delivered and nothing else is, and waiting for the background means what it says |
| `ClaudeTurn.CompletionDeliversEverything` | crates/installation/src/claude_process.rs:709-747 | A turn completes only when every message ever submitted to it has been delivered |
| `ClaudeTurn.WaitingMeansWaiting` | crates/installation/src/claude_process.rs:509-520 | An agent said to wait for background work has nothing pending and something listed |
| `ClaudeDeliveries.TurnReflectsItsRun` | crates/installation/src/claude_process.rs:402-530 | Over any run, a message is delivered exactly if, once submitted, a user line carried it, a result named it or settled it unnamed after a user line, or it answered an open question; pending, questions, waiting and the last words are likewise exactly what the run says |
| `ClaudeDeliveries.CompletesIff` | crates/installation/src/claude_process.rs:728-747 | A successful result completes the turn exactly if, by the run, nothing is pending, listed or awaited |
| `ClaudeDeliveries.SpreadIsTheSame` | crates/installation/src/claude_process.rs:409-426 | Taking an inbox message by message is taking it at once |
| `ClaudeTurn.RunTracks` | crates/installation/src/claude_process.rs:485-507 | The listed and awaited background work and the notification flag say exactly what the run so far says |
| `ClaudeTurn.CompletionAwaitsTasks` | crates/installation/src/claude_process.rs:728-743 | At completion nothing is listed, and everything ever reported as the run's own has turned ambient or was off the list at a notification's result |
| `ClaudeTurn.ReceiptsAreAccepted` | crates/installation/src/claude_process.rs:749-757 | Every receipt a turn writes is accepted for its request and lists exactly the submitted messages |
| `ClaudeTurn.ReceiptsSettle` | crates/installation/src/claude_process.rs:303-321 | Once the receipt is durable, over any crashes the CLI is never started again and every finished execution has the same output and deliveries |
| `ClaudeTurn.EveryExecution` | crates/installation/src/claude_process.rs:824-837 | Until then only the request's own turns run; over every sequence of executions and crashes |
| `ClaudeTurnObject.Turn.Deliver` | crates/installation/src/claude_process.rs:379-384 | Each message is reported delivered once |
| `ClaudeTurnObject.Turn.Submit` | crates/installation/src/claude_process.rs:413-426 | A message is submitted once, or answers its question |
| `ClaudeTurnObject.Turn.PollInbox` | crates/installation/src/claude_process.rs:402-428 | The loop submits the inbox in order |
| `ClaudeTurnObject.Turn.BackgroundTasks` | crates/installation/src/claude_process.rs:485-507 | The list is replaced, the awaited set grows and shrinks, and a waiting agent's clients hear of a change |
| `ClaudeTurnObject.Turn.AnnounceWaiting` | crates/installation/src/claude_process.rs:509-520 | Waiting is announced with the list, and ends with an empty one |
| `ClaudeTurnObject.Turn.OnUser` | crates/installation/src/claude_process.rs:522-530 | An echoed message is consumed and delivered |
| `ClaudeTurnObject.Turn.Settle` | crates/installation/src/claude_process.rs:722-727 | The loop delivers exactly the pending messages a result settles, in any order |
| `ClaudeTurnObject.Turn.OnResult` | crates/installation/src/claude_process.rs:709-747 | A result completes the turn exactly if nothing is pending, listed or awaited, and then the receipt is saved |
| `ClaudeTurnObject.Turn.Complete` | crates/installation/src/claude_process.rs:749-761 | The receipt is saved first, then the output is written, and then completion is reported |
| `Updater.CommitsAreProven` | deploy/installations/host.py:394-402 | Every committed image but the first was, at an earlier moment, pending, deployed and found healthy |
| `Updater.FailuresWereObserved` | deploy/installations/host.py:461-467 | An image is marked failed only after it was observed unhealthy |
| `Updater.GrantsWereRecorded` | deploy/installations/host.py:442-452 | Every lease the supervisor ever held had its owner on disk at an earlier moment at which it was not held yet |
| `Updater.Supervisor.Install` | deploy/installations/host.py:172-219 | Installing again deploys the committed image |
| `Updater.Supervisor.Acquire` | deploy/installations/host.py:289-304 | A lease is granted only if it is free or ours; the reply can be lost |
| `Updater.Supervisor.Release` | deploy/installations/host.py:428-432 | After an answered release the lease is not ours |
| `Updater.Supervisor.ReleaseAndForget` | deploy/installations/host.py:469-471 | The owner is forgotten only after an answered release |
| `Updater.Supervisor.Launch` | deploy/installations/host.py:365-392 | A launch succeeds exactly if every effect does and the probe says healthy; only a verdict on the pending image marks it unhealthy |
| `Updater.Supervisor.Finish` | deploy/installations/host.py:394-402 | One write commits, marks failed or leaves eligible |
| `Updater.Supervisor.Prepare` | deploy/installations/host.py:442-452 | Image and owner are on disk before the lease is requested |
| `Updater.Supervisor.UpdateImage` | deploy/nodes/host.py:248-258 | The candidate is launched, and the previous image again if that fails |
| `Updater.Supervisor.Update` | deploy/installations/host.py:281-471 | A healthy release is committed; another is rolled back and marked failed exactly if seen unhealthy; an interrupted update is undone; and nothing happens without a release that is neither committed nor known to fail |
| `Updater.Supervisor.Supervise` | deploy/installations/host.py:404-432 | Over any number of runs, each stopped after any of its effects, the journal stays sound: at every moment without a pending image on disk the deployed image is the committed one, and a lease that is ours has its owner on disk |
| `Updater.Lifetime` | deploy/installations/host.py:404-432 | From installation on, over any such runs and without further assumption, all of this holds: commits were proven, failures observed, leases recorded |
| `NodeSupervisor.CommitsServed` | deploy/nodes/host.py:261-283 | Every committed image but the first was running and healthy when it was committed |
| `NodeSupervisor.MaintenanceEndsWithAReport` | deploy/nodes/host.py:305-311 | The node leaves maintenance only when the master has received a report |
| `NodeSupervisor.AcknowledgementsAreReceived` | deploy/nodes/host.py:305-315 | If at some moment nothing is due, later an acknowledgement is due and later still it no longer is, then since the first of these moments the master has received one for the image committed at the time |
| `NodeSupervisor.Node.Launch` | deploy/nodes/host.py:195-225 | A failed launch leaves nothing, or its image unhealthy, in place of what ran before |
| `NodeSupervisor.Node.Reconcile` | deploy/nodes/host.py:305-315 | What is due is sent until its reply arrives, and the image is left alone |
| `NodeSupervisor.Node.Update` | deploy/nodes/host.py:261-283 | A healthy candidate is committed, another marked failed; the node serves afterwards if and only if one of the two launches succeeds, unless nothing was replaced: a stop before or during the drain leaves the container and the configuration on disk as they were |
| `NodeSupervisor.Node.Round` | deploy/nodes/host.py:342-350 | A round takes a healthy new release once nothing is left to acknowledge, and replaces nothing if the approved image is committed or known to fail |
| `NodeSupervisor.Node.IdleRound` | deploy/nodes/host.py:349-350 | A round that approves the committed image neither breaks nor repairs what runs |
| `NodeSupervisor.Node.Start` | deploy/nodes/host.py:331-339 | Starting succeeds exactly if the committed image runs or its launch succeeds |
| `NodeSupervisor.Node.Supervise` | deploy/nodes/host.py:331-350 | Over any number of lives, each stopped after any of its effects, the journal stays sound |
| `NodeSupervisor.Lifetime` | deploy/nodes/host.py:331-350 | From enrolment on, over any such lives and without further assumption, these results hold: each commit served, maintenance ended only with a report, and what became due and no longer is was received since nothing was due |
| `NodeSupervisor.Stranded` | deploy/nodes/host.py:261-283 | A concrete run that leaves a node with its committed image on disk and nothing serving, for any number of rounds that approve that image |
| `CliLines.TakeLine` | crates/installation/src/claude_process.rs:807-822 | One read extends the line up to and with its first newline, or fails exactly at the end of the output or at the limit |
| `CliLines.Read` | crates/installation/src/claude_process.rs:786-797 | The loop over one read is feeding its bytes one by one |
| `CliLines.ReadsDoNotMatter` | crates/installation/src/claude_process.rs:774-800 | The lines handled are the output cut after each newline, however it arrived in pieces |
| `CliLines.FailsIffALineIsTooLong` | crates/installation/src/claude_process.rs:815-819 | Reading fails if and only if some line, or what has arrived of it, is too long |
| `Utf8.CutIsValid` | crates/installation/src/chat_titles.rs:216-218 | Cutting valid text at a character boundary leaves valid text on both sides |
| `Titles.CutTakesSomething` | crates/installation/src/chat_titles.rs:215-218 | A cut takes at least one byte, at most 8,000, and within three bytes of that unless it takes everything |
| `Titles.ChunksLoseNothing` | crates/installation/src/chat_titles.rs:207-241 | The parts of each message, in order, are its text |
| `Titles.ChunksCutCleanly` | crates/installation/src/chat_titles.rs:219-224 | Every part is valid text of at most 8,000 bytes |
| `Titles.ChunksFit` | crates/installation/src/chat_titles.rs:225-232 | Every chunk serialises to at most 64,000 bytes however its text is escaped, and none is empty unless there is nothing to pack |
| `Titles.ChunksAreFull` | crates/installation/src/chat_titles.rs:226-229 | Every chunk but the last had no room for what comes next |
| `Titles.FindCut` | crates/installation/src/chat_titles.rs:215-218 | Stepping back finds the last boundary |
| `Titles.PackMessage` | crates/installation/src/chat_titles.rs:212-237 | The inner loop packs exactly the parts of one message |
| `Titles.MakeChunks` | crates/installation/src/chat_titles.rs:207-241 | The loops compute exactly the chunks described |
| `Titles.ThreeToAChunk` | crates/installation/src/chat_titles.rs:144-155 | Every chunk of accepted summaries but the last holds at least three |
| `Titles.SummariesShrink` | crates/installation/src/chat_titles.rs:190-201 | Packing n accepted summaries leaves m chunks with 3(m - 1) + 1 <= n, and fewer than n |
| `Titles.Generate` | crates/installation/src/chat_titles.rs:172-203 | The summarisation loop ends, and names what the conversation condenses to |
| `Titles.CondensesByRounds` | crates/installation/src/chat_titles.rs:180-201 | Each round replaces every chunk by the model's reply to it, in order, until one chunk is left, or a reply does not count: 1 to 8,000 bytes without control characters |
| `Titles.UnvalidatedNeverShrink` | crates/installation/src/chat_titles.rs:148-153 | Without the validator's control-character rule, n summaries pack into n chunks, for every n |
| `OAuth.OneLiveRefresh` | crates/beacon/src/mcp.rs:639-643 | A grant has at most one refresh token that still works, with exactly the grant's scopes |
| `OAuth.OneGrantPerCode` | crates/beacon/src/mcp.rs:559-603 | A code has created at most one grant, ever |
| `OAuthRedemption.CodeIsRedeemedIff` | crates/beacon/src/mcp.rs:559-603 | Over every run, a code is answered with tokens exactly if a consent made it less than 300 seconds ago, its installation was not detached since, it has made no grant, and the request has the consent's client and redirect, the right resource, and a well-formed verifier whose hash is the challenge |
| `OAuthRedemption.GrantsCameFromConsent` | crates/beacon/src/mcp.rs:559-603 | Every grant made from a code was made by such a request after the consent |
| `OAuthRedemption.TokenIsRefreshedIff` | crates/beacon/src/mcp.rs:604-643 | Over every run, a refresh is answered with tokens exactly if its token was issued as a refresh token less than 30 days ago to the same client, its grant stands, nothing has spent it, and the scopes asked for are some of its own |
| `OAuthRedemption.BearerIsAuthorizedIff` | crates/beacon/src/mcp.rs:186-195 | Over every run, a bearer is good for exactly the scopes issued, for an hour (30 days for a personal token), while the grant stands |
| `OAuthRedemption.CodeIsReplayedIff` | crates/beacon/src/mcp.rs:565-594 | A use of a code counts as a replay exactly if it is otherwise correct and the grant the code made still stands |
| `OAuthRedemption.RefreshIsReplayedIff` | crates/beacon/src/mcp.rs:605-618 | A use of a refresh token counts as a replay exactly if it is otherwise correct, has been spent, and its grant still stands |
| `OAuthRedemption.GrantEndsIff` | crates/beacon/src/mcp.rs:586-619 | A grant ends exactly by its revocation, a revocation of its tokens by its client, its detach, its expiry or a replay of its credentials; no other grant goes with it |
| `OAuth.NeverMoreThanConsented` | crates/beacon/src/mcp.rs:186-195 | What a bearer may use is within what the owner consented to |
| `OAuth.RunsGoOnward` | crates/beacon/src/lib.rs:904-922 | Over any sequence of transactions and passing time the store stays sound, grants only narrow, and deleted grants and codes stay deleted |
| `OAuth.ScopesOnlyShrink` | crates/beacon/src/mcp.rs:621-634 | A later state of a family is never wider than an earlier one |
| `OAuth.RefreshNarrows` | crates/beacon/src/mcp.rs:604-643 | A refresh issues tokens within the scopes of the token presented, which stops working |
| `OAuth.ReplayEndsTheFamily` | crates/beacon/src/mcp.rs:586-619 | Replaying a spent code or a used refresh token with valid parameters ends the whole family, for good |
| `OAuth.DetachLeavesNothing` | crates/beacon/src/installations.rs:271-314 | No grant, token or code of an installation survives its detach, whoever claims it again |
| `OAuthStore.Store.DeleteGrant` | crates/beacon/src/mcp.rs:587-591 | Deleting a grant takes its tokens and its code with it |
| `OAuthStore.Store.ExchangeCode` | crates/beacon/src/mcp.rs:559-603 | Redeeming a code answers and updates the tables as the model says |
| `OAuthStore.Store.ExchangeRefresh` | crates/beacon/src/mcp.rs:604-643 | Refreshing answers and updates the tables as the model says |
| `Chats.EveryRun` | crates/installation/src/chats.rs:263-319 | Conservation, order and announcement invariants hold over every sequence of transactions |
| `Chats.MessagesAreConserved` | crates/installation/src/chats.rs:231-240 | Every row ever accepted was withdrawn or is there; at most 20 are undelivered; each message is announced once, exactly when delivered |
| `Chats.DeliveredForGood` | crates/installation/src/chats.rs:340-379 | A delivered message stays delivered over every run |
| `Chats.ResendingIsIdempotent` | crates/installation/src/chats.rs:273-284 | Sending the same message again changes nothing and answers with the stored row |
| `Chats.RetriesLeaveOneMessage` | crates/installation/src/chats.rs:263-303 | Over any run that does not withdraw it, a message sent again any number of times is stored exactly once, as the same row |
| `Chats.LaunchTakesTheOldestIff` | crates/installation/src/chats.rs:532-567 | Over every run, a launch passes over an older pending message if and only if, after the message it takes was picked, it was accepted anew while a message was there that is still pending |
| `Chats.OvertakingHappens` | crates/installation/src/chats.rs:541-546 | A reachable run in which a launch passes over an older message |
| `ChatsRows.SendingNew` | crates/installation/src/chats.rs:231-303 | A new identifier is stored exactly if the chat is active, fewer than 20 messages are undelivered, no other chat has used it and its sender may send it; then one queued row comes last |
| `ChatsRows.SendingAgain` | crates/installation/src/chats.rs:273-284 | A known identifier changes nothing and is answered with its row exactly if content and answered question are the same |
| `ChatsRows.Editing` | crates/installation/src/chats.rs:321-338 | Exactly a queued row of an active chat that answers no question is edited, and only in content and mode |
| `ChatsRows.Withdrawing` | crates/installation/src/chats.rs:305-331 | Exactly a queued row of an active chat is withdrawn, and only it |
| `ChatsRows.Acknowledging` | crates/installation/src/chats.rs:340-379 | Exactly a queued or sending row of an active chat is delivered and announced |
| `ChatsRows.Claiming` | crates/installation/src/chats.rs:382-408 | Exactly the rows of an active chat that are queued or sending, in steer mode, not being delivered and, while paused, answers are marked as sending; every other row stays |
| `ChatsRows.Picking` | crates/installation/src/chats.rs:411-422 | Every sending row is requeued, and the first row queued then is picked, if there is one |
| `ChatsRows.Launching` | crates/installation/src/chats.rs:532-567 | A turn is launched exactly if the chat is active and not paused and the picked message is still queued with the same content; only its row changes |
| `ChatsObject.Queue.Send` | crates/installation/src/chats.rs:263-303 | Sending answers and stores as the model says |
| `ChatsObject.Queue.Acknowledge` | crates/installation/src/chats.rs:340-379 | A message is delivered and announced once |
| `ChatsObject.Queue.CountUndelivered` | crates/installation/src/chats.rs:232-235 | The count is that of the model |
| `ChatsObject.Queue.ClaimSteering` | crates/installation/src/chats.rs:382-408 | The answer has, in row order, exactly the rows a running turn may take, marked as sending in the table and in the answer; every other row stays |
| `ChatsObject.Queue.NextQueued` | crates/installation/src/chats.rs:411-422 | Everything left sending is requeued before the first queued message is picked |
| `ChatsObject.Queue.LaunchTurn` | crates/installation/src/chats.rs:532-567 | A turn starts exactly if chat and message are unchanged |
| `CodexHistory.KeepingKeepsIds` | crates/installation/src/chat_process.rs:732-750 | Dropping tool output and earlier answers drops no message identifier |
| `CodexHistory.RecoveredIsValid` | crates/installation/src/chat_process.rs:516-536 | Putting in a lost turn keeps the index map and the turn list in step |
| `CodexHistory.TurnsComeBackInOrderIff` | crates/installation/src/chat_process.rs:489-551 | Turns with items end up in exactly the reverse order of their first items if and only if the listing has its turns in that order and the first item of each turn it lacks follows an item of the turn met last |
| `CodexHistory.ListedTurnsKeepTheirOrder` | crates/installation/src/chat_process.rs:489-551 | Whatever items come, the listed turns keep their order |
| `CodexHistory.ScatteredItemsMisplace` | crates/installation/src/chat_process.rs:522-527 | Items that return to an earlier turn misplace the next lost turn |
| `CodexHistory.LoadingLosesNoMessage` | crates/installation/src/chat_process.rs:509-540 | The turns read back mention exactly the message identifiers of the listing and the items |
| `CodexItems.KeepsMessagesAndTheLastAnswer` | crates/installation/src/chat_process.rs:732-750 | Of a turn's items exactly the user messages and the last answer are kept, in their order |
| `CodexItems.EachTurnKeepsItsItems` | crates/installation/src/chat_process.rs:509-540 | Whatever turns' items come in between, each turn ends with what was listed of it and what is kept of its own items |
| `CodexItems.LostTurnsComeBackWhole` | crates/installation/src/chat_process.rs:516-540 | A turn the listing lacks comes back with exactly its user messages and its last answer |
| `CodexHistory.Shift` | crates/installation/src/chat_process.rs:523-527 | The loop makes room at an index in the map |
| `CodexHistory.LoadItems` | crates/installation/src/chat_process.rs:489-551 | The loop computes the history described |
| `CodexThread.AcceptedAtMostOnce` | crates/installation/src/chat_process.rs:573-639 | Over any sequence of executions, lost answers, failed steers and restarts, each message identifier is accepted at most once into the thread |
| `CodexThread.LoadedHistoryIsFaithful` | crates/installation/src/chat_process.rs:553-571 | A loaded history mentions exactly the messages the thread has accepted, whatever turns the listing has lost |
| `CodexThread.ExecutionsStartWithTheThread` | crates/installation/src/chat_process.rs:573-639 | An execution goes on with its request exactly if the thread has it, and starting the turn submits it exactly if not |
| `CodexChat.Chat.Acknowledge` | crates/installation/src/chat_process.rs:196-202 | Each message is reported delivered once |
| `CodexChat.Chat.AcknowledgeHistory` | crates/installation/src/chat_process.rs:578-586 | Every message of the history is acknowledged |
| `CodexChat.Chat.SteerOne` | crates/installation/src/chat_process.rs:680-717 | A message is tried exactly if the turn is not complete and it is neither known nor tried before; it is in the thread exactly if accepted, and known exactly if answered |
| `CodexChat.Chat.Steer` | crates/installation/src/chat_process.rs:670-720 | The loop never puts a message into the thread twice, and with every request answered it passes over none |
| `Limiter.CounterStaysBounded` | crates/beacon/src/lib.rs:891 | The counter stays between one and the maximum plus one |
| `Limiter.AdmittedIff` | crates/beacon/src/lib.rs:885-901 | A request is let through exactly if fewer than the maximum of its window's requests came before it |
| `Limiter.AtMostTheMaximumPerWindow` | crates/beacon/src/lib.rs:885-901 | At most the maximum is admitted per window |
| `Limiter.LessThanTwiceTheMaximum` | crates/beacon/src/lib.rs:885-901 | Fewer than twice the maximum are admitted in any interval of the window's length |
| `Limiter.BoundIsMet` | crates/beacon/src/lib.rs:891 | That bound is met by a concrete sequence of requests |
| `Limiter.CleanupIsInvisible` | crates/beacon/src/lib.rs:910 | Deleting the row of an expired window changes nothing |
| `Limiter.Limits.ConsumeLimit` | crates/beacon/src/lib.rs:885-901 | One request updates its key's row and no other |

## Left out

- HTTP routing, WebSocket and WebRTC plumbing, SQL text, hashing and signatures: only the events they deliver and the tables they change are modelled.
- Timers: the reassembly deadline, heartbeats, watchdogs and the relay's 30-second identity monitor do not fire; request timeouts are nondeterministic steps.
- Direct-connection authorisations inside the relay's access table, and MCP requests through the relay.
- DirectChannel.DeliversExactlyTheCompleted: the 30-second reassembly deadline is not modelled, and frames are payload bytes, not parsed JSON; the installation's receiver is one connection's, without the reassembly budget that an account's connections share, and without the transfers it discards once that budget is spent.
- DirectChannel.PeersAgree: of the installation's receiver, the shared reassembly budget, discarded transfers and the fast path for members (crates/protocol/src/data_channel.rs) are not modelled.
- LiveReplication.ShownIsTheLog: covers only views that started from nothing; windowed and cached starts are the subject of LiveWindow.
- HistoryCache.CachedVisitsResume: is about two folds of one log, not a run of connects and batches; LiveWindow.CachedVisitsShowTheLogIff is.
- LiveWindow.WindowShowsTheLogIff: how many recent events a page holds, 100 or 256 KiB of them, is left open: any number from one on.
- LiveWindow.CachedVisitsShowTheLogIff: it is about rows kept whole; for rows trimmed to the cache's budget only the restored message map is described (HistoryCache.TrimmedRestoreIsRestriction).
- LiveObjects.LiveView.OnBatch: batches of older servers, which carry no history revision, are modelled here but not in the runs of LiveRun.
- Loading older history pages, which folds already folded rows again in order of their ids, and the finite snapshot read for old installations.
- The in-memory and stored limits of the history cache, apart from trimming one entry.
- ClaudeTurn: tools, streamed blocks and permissions, which only shape the events shown; older receipt formats.
- Applying a generated title to the chat record, and validating the title itself.
- Updater.Supervisor.Update: what Docker and the beacon answer is a parameter, so how those answers are obtained, and the five observations of a pending candidate, are not modelled.
- NodeSupervisor.Node.Round: caching runtimes, the shutdown timeout and replacing the supervisor's own program are not modelled.
- OAuth: client registration, redirect matching, consent parameters and rate limits; a challenge is its verifier's hash, which tells verifiers apart.
- Chats: questions beyond the identifier of the one a message answers, attachments, pausing after failures and deletion of conversations.
- Email sign-in attempts, invitations, avatars, device login, model catalogues and the user interface.
