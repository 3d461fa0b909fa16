# Copresence: verified model

A Dafny model of the three stateful protocols of Copresence, with proofs over every run.

**Presence.** Cursor and scroll events pass a per-connection sequence guard, fold into a session (per-field
last-writer-wins with dirty marks), and leave coalesced on a tick, whose last patch is repeated for 750 ms.
A recipient rebuilds the roster behind its own patch guard. `Presence` and `ReducerOrder` are the reducer,
`Scheduler` and `Services` the tick, `Receiver`, `PatchHistory` and `ConvergenceTracker` the recipient's view and its
report, `Distinguishing` what that report can tell apart, `Sdk` the browser's own copy of that view. `Coalescing` runs one session on a network that is in order and
proves coalescing a refinement of plain forwarding; `Projection` shows that every run of the whole server is such a run
for each of its participants. `Convergence` lets the network lose, repeat and reorder; `Chaos` is the layer that does
so, with every message accounted for, and `EndToEnd` puts server, layer and recipient together.

**Audit.** `Audit` merges three end-of-session paths into one record; `Reconciler` recomputes what is open by a string
key and closes what is overdue. `Hub`, `Registry`, `Server`, `Services` and `Controllers` are the roster machinery that
feeds both.

**Client transport.** `ClientQueue` is the in-place coalescing buffer, `ClientConnection` the reconnect machine over
it, and `Handshake` what a fresh server connection makes of what they write.

Code that changes state in the source is a class or a method with loops here, each tied by its `ensures` to a function of
the old state; the lemmas are about those functions. Time, randomness, generated ids, socket readiness and
bufferedAmount readings are parameters. Iteration orders of Maps are parameters too, so that results hold for each of them.

## Facts the code does not guarantee

Some tempting statements are false of the code. The code is modelled as it is; the exact condition is proved for
every run or state, and a reachable run shows the failure:

- A field is not repaired when its last patch is overtaken by one that does not mention it
  (`Convergence.FieldConvergesIffAccepted`, `Counterexamples.OvertakenFieldIsLost`).
- A resend can bring back a departed participant, in the default colour
  (`Coalescing.DepartedReappearsIff`, `Coalescing.SeesRosterAndGhosts`, `Counterexamples.DepartedReappears`).
- A late welcome overwrites newer patch values
  (`Convergence.LateWelcomeIff`, `Counterexamples.LateWelcomeOverwrites`).
- What the client queued before a socket opened is written ahead of the hello and refused, lossless messages included,
  and a lossy replacement can make the server refuse a message behind it, contrary to the classification in
  docs/adr/0009 (`Handshake.NonLossyTakenIff`, `Handshake.QueuedBeforeOpenIsLost`, `Handshake.SentTooEarlyIsLost`,
  `Handshake.ReplacementOvertakes`).
- The client does not send in numerical order: an audit message is numbered when it is built and sent when the outbox
  has stored it, so that a session start can reach the server behind a hello with a higher number and be refused
  (`Handshake.NonLossyTakenIff`, `Handshake.LateAuditIsRefused`).
- Presence traffic does not keep a participant from the reaper
  (`Server.ReapedIffLastHelloOld`, `Server.ActiveIsReaped`).
- A colon in a session id can hide an open session from the sweep
  (`Reconciler.SweepClosesIffNotShadowed`, `Reconciler.ColonHidesOpenSession`), contrary to docs/adr/0013.
- A pid registered under a second session stays in the first one's index (`Server.RegisterKeepsAgreementIff`), and a
  late close of its first connection unregisters it from the second
  (`Server.LeaveKeepsLockstepIff`, `Server.LateCloseUnregistersElsewhere`).
- SDK and server-side simulation part ways at a reseed that does not carry what they hold
  (`Sdk.StepMirrors`, `Counterexamples.ReseedParts`), contrary to the simulation's own comment.

## Model

| member | source | states |
|---|---|---|
| Presence.ApplyPresenceEvent | apps/server/src/models/applyEvent.ts:68-108 | A cursor or scroll event moves exactly the observed field of a present participant, only when its seq is newer than the stored one, and marks that field dirty; every other field, mark and participant stays. |
| ReducerOrder.FoldHoldsNewest | apps/server/src/models/applyEvent.ts:68-108 | Folding any event list leaves in each field the highest-seq observation newer than what was stored, the old value if there is none, and marks exactly the fields that received one. |
| ReducerOrder.OrderIndependence | apps/server/src/models/applyEvent.ts:53-108 | Two lists with the same events (permutations, or with repeats), with distinct seqs per participant and field, fold to the same session: participants and dirty map. |
| Presence.ColorHashWrapsOnce | apps/server/src/models/Participant.ts:35-43 | Wrapping to 32 bits at every step of the colour hash equals wrapping the whole polynomial once. |
| Presence.ColorIsPicked | apps/server/src/models/Participant.ts:35-43 | The colour of an id is the palette entry at the hash's absolute value modulo the palette's size. |
| Receiver.ApplyPatchesHeld | apps/server/src/services/ConvergenceTracker.ts:115-129 | After a patch, each field holds the last value the patch carries for it, else what it held before. |
| Receiver.UpsertAllHeld | apps/server/src/services/ConvergenceTracker.ts:98-113 | After upserting a list, each field holds the last value listed, else what it held; a pid is present iff it was, or is listed. |
| ConvergenceReport.ConvergenceTracker.RecordDelivery | apps/server/src/services/ConvergenceTracker.ts:52-80 | One delivery changes exactly the addressed recipient's view, by the delivery function, and no other view. |
| ConvergenceReport.ConvergenceTracker.Forget | apps/server/src/services/ConvergenceTracker.ts:82-84 | Forgetting a session removes exactly that session's views. |
| PatchHistory.GuardHoldsMaximum | apps/server/src/services/ConvergenceTracker.ts:70-74 | The guard's memory is the maximum of its start value and every seq delivered. |
| PatchHistory.AcceptedIffRecord | apps/server/src/services/ConvergenceTracker.ts:70-74 | A delivered patch is accepted iff it is a strict left-to-right maximum of the seqs. |
| PatchHistory.InOrderHistory | apps/server/src/services/ConvergenceTracker.ts:70-74 | For any delivery sequence the view equals unguarded application of just the strict left-to-right maxima. |
| PatchHistory.FieldFromNewestMention | apps/server/src/services/ConvergenceTracker.ts:70-129 | Each field holds the value from the highest-seq accepted patch mentioning it, or its initial value when none does. |
| PatchHistory.OvertakenInsertion | apps/server/src/services/ConvergenceTracker.ts:70-74 | Inserting an overtaken or duplicate patch anywhere after its overtaker leaves the whole view unchanged. |
| PatchHistory.DeliverTwice | apps/server/src/services/ConvergenceTracker.ts:58-80 | Applying any message twice in a row is applying it once. |
| PatchHistory.PresentIffNamed | apps/server/src/services/ConvergenceTracker.ts:70-129 | Which participants are in a view after any delivery: those it held, and those an accepted patch names; no one else. |
| ConvergenceReport.HashString | apps/server/src/services/ConvergenceTracker.ts:149-153 | The signed 32-bit loop with Math.imul computes the unsigned mod 2^32 FNV-1a hash. |
| ConvergenceReport.CanonicalIgnoresHistory | apps/server/src/services/ConvergenceTracker.ts:139-147 | A view has one canonical string whatever order its entries were inserted in: the sort by distinct pid has a unique result. |
| ConvergenceReport.HashOf | apps/server/src/services/ConvergenceTracker.ts:139-154 | The hexadecimal hash returned is that of the canonical string for every insertion order of the view. |
| ConvergenceReport.HexInjective | apps/server/src/services/ConvergenceTracker.ts:153-153 | Different hash values are rendered differently, so comparing strings is comparing hashes. |
| ConvergenceReport.ConvergenceTracker.Report | apps/server/src/services/ConvergenceTracker.ts:86-95 | One hash per recipient; converged iff all hashes agree, hence always when all views are equal. |
| Distinguishing.CanonicalTellsViewsApart | apps/server/src/services/ConvergenceTracker.ts:139-147 | With ids, colours and numbers written without the two separators, two views have one canonical string iff they are equal. |
| Distinguishing.OneCharacterShows | apps/server/src/services/ConvergenceTracker.ts:149-153 | Two strings that differ in exactly one character never have the same hash, rendered or not. |
| Distinguishing.HashOfA | apps/server/src/services/ConvergenceTracker.ts:149-153 | The published FNV-1a values of the empty string and of "a", and the latter's rendering. |
| Distinguishing.XorBit | apps/server/src/services/ConvergenceTracker.ts:151-151 | A bit of the exclusive or is set iff the two numbers differ in it. |
| Sdk.CopresenceClient.RouteMessage | packages/client/src/index.ts:211-242 | The SDK's handler changes its remotes and last patch seq as the routing function says, own pid excluded. |
| Sdk.ReseedAgreesIffCarries | packages/client/src/index.ts:260-269 | Keeping listed participants (SDK) and starting over (tracker) agree outside the receiver itself iff the list carries every value already held for those it lists. |
| Sdk.StepMirrors | packages/client/src/index.ts:211-309 | One message keeps SDK and tracker in step, own pid removed and same last seq; for a welcome or snapshot exactly when it carries every value held. |
| Sdk.TrackerSimulatesClient | apps/server/src/services/ConvergenceTracker.ts:52-129 | Over any message sequence whose reseeds carry what is held when they arrive, the tracker's view is the client's. |
| Sdk.ClientRemembers | packages/client/src/index.ts:260-309 | Over any message sequence the SDK knows exactly the others it has seen since they last came; of each it holds the last two cursors and the last scroll seen, with their times, and when it was last seen. |
| Counterexamples.ReseedParts | packages/client/src/index.ts:260-269 | Concrete run: welcomed, then a leave and rejoin go unheard, then a second welcome; the SDK keeps the old cursor, the simulation, like the server, has none. |
| Scheduler.ToPatch | apps/server/src/views/presenters.ts:77-98 | One patch entry per present participant with a dirty entry, carrying exactly its dirty fields; empty iff there is none. |
| Scheduler.ToParticipantSnapshots | apps/server/src/views/presenters.ts:25-38 | The roster listed once per participant with exactly its stored fields. |
| Scheduler.ListedAsStored | apps/server/src/views/presenters.ts:25-38 | What such a list says of a participant is its stored colour, last sighting and values. |
| Scheduler.EventKeepsSettleSound | apps/server/src/services/TickScheduler.ts:96-117 | Any hello, cursor, scroll or bye keeps every settling value current, or dirty, absent, or its participant gone. |
| Scheduler.TickKeepsInvariants | apps/server/src/services/TickScheduler.ts:86-123 | A tick keeps the session and settle invariants, leaves the roster alone and leaves nothing dirty. |
| Scheduler.QuietResends | apps/server/src/services/TickScheduler.ts:86-117 | A quiet session resends at exactly the ticks before settleUntil and at none after, the same patches under tick numbers that go up by one. |
| Convergence.TickBroadcasts | apps/server/src/services/TickScheduler.ts:86-123 | Over every run whose clock never goes back, for any number of participants: a tick of an existing session broadcasts exactly what is dirty if anything is; otherwise it repeats the last flush iff that was less than 750 ms before; each time under its own number, one more than the ticks before it. |
| Scheduler.ResendsAreBounded | apps/server/src/services/TickScheduler.ts:96-117 | With ticks at least d ms apart a quiet session gets at most ceil(750/d)-1 resends. |
| Services.TickScheduler.Tick | apps/server/src/services/TickScheduler.ts:86-123 | One seq per tick; every session, settle entry and announcement becomes what the per-session tick says, and nothing else changes. |
| Coalescing.RunKeepsInvariant | apps/server/src/services/TickScheduler.ts:86-123 | The invariant spanning reducer, scheduler, settle entry and both views holds at every point of every run. |
| Coalescing.CoalescedViewLagsOnlyDirty | apps/server/src/services/TickScheduler.ts:33-37 | At every point a connected participant's coalesced view holds every server value except dirty ones; the event-by-event view holds them all. |
| Coalescing.CoalescingRefinesForwarding | apps/server/src/services/TickScheduler.ts:86-123 | After every tick of every run of hello, cursor, scroll, bye, close, reap and tick, duplicates allowed, the coalesced view and plain forwarding agree with the server on every value it holds, across leave and rejoin. |
| Coalescing.SettleEntriesAreSound | apps/server/src/services/TickScheduler.ts:96-117 | At every point of every run each value to be resent is current, unless its field is dirty again, has no value, or its participant is gone. |
| Coalescing.ResendMovesNothing | apps/server/src/services/TickScheduler.ts:96-117 | A tick with nothing dirty leaves every server-held value of an up-to-date view where it was: a resend moves nothing backwards. |
| Coalescing.DepartedReappearsIff | apps/server/src/services/ConvergenceTracker.ts:119-128 | At every point of every run: a departed pid missing from the view comes back at a tick iff the tick is a resend inside the window of a patch naming it, and then in the default colour. |
| Counterexamples.DepartedReappears | apps/server/src/services/TickScheduler.ts:101-117 | Concrete run: join, move, second join, tick, leave, tick within 750 ms; the other's view holds the departed again, in the default colour. |
| Coalescing.SeesRosterAndGhosts | apps/server/src/services/TickScheduler.ts:86-123 | At every point of every run a connected view holds everyone in the session and, besides them, exactly the departed whom a resend has named since the last welcome and who have not joined again. |
| Coalescing.ColoursAreShown | apps/server/src/models/Participant.ts:35-56 | At every point of every run everyone in the session has the colour of its id, on the server and in every connected view. |
| Convergence.LaterEmissionsRepeat | apps/server/src/services/TickScheduler.ts:101-117 | Over every run: every patch broadcast from the last dirty tick on carries that tick's content, whatever else happens meanwhile. |
| Convergence.ConvergesAmidOthers | apps/server/src/services/ConvergenceTracker.ts:58-80 | Over every run with last dirty tick k: a view given any messages but patches numbered k or later, then the run's patches in any order, with repeats and losses, mixed with messages that leave the field alone, ends with what the server held at k of every field patch k mentions, once one patch numbered k or later is among the latter. |
| Convergence.ConvergesUnderAnySchedule | apps/server/src/services/TickScheduler.ts:86-123 | Let k be the last dirty tick, whatever happened since: any view processing any finite sequence of the run's patches, any order, repeats or losses, at least one numbered k or later, ends with what the server held at k of every field patch k mentions. |
| Convergence.QuietSessionConverges | apps/server/src/services/TickScheduler.ts:86-123 | If only ticks follow k, such a view equals the server from then on. |
| Convergence.AnyTwoViewsAgree | apps/server/src/services/ConvergenceTracker.ts:86-95 | Any two such views agree on those fields. |
| Convergence.EmissionIsCurrent | apps/server/src/services/TickScheduler.ts:86-117 | Over every run: whatever a broadcast, flush or resend, says of a field is the server's value at that tick, if it holds one. |
| Convergence.FieldConvergesIffAccepted | apps/server/src/services/ConvergenceTracker.ts:70-74 | Over every run, the server's value of a field being the same from step k on: a view given any sequence of the run's patches ends with it iff it accepts one broadcast from step k on that mentions the field, or already held it when the first of those arrived. |
| Counterexamples.OvertakenFieldIsLost | apps/server/src/services/TickScheduler.ts:96-117 | Concrete run: join, move, tick, scroll, tick; of its two patches delivered in reverse the first is refused and the cursor never learnt. |
| Convergence.LateWelcomeIff | apps/server/src/services/ConvergenceTracker.ts:59-74 | Over every run, the welcome of step h delivered after any messages and before any of the run's patches: the view ends with the server's present value of a field iff the newest patch accepted after it that mentions the field repeats a flush at which the server held that value, or none mentions it and the server held it at h. |
| Counterexamples.LateWelcomeOverwrites | apps/server/src/services/ConvergenceTracker.ts:59-63 | Concrete run: a patch arrives, then the welcome sent before it, and the view goes back to where the participant was. |
| EndToEnd.WireIsDelivery | apps/server/src/services/ChaosMiddleware.ts:159-240 | In every chaos run with timers at most L ms late: if since 2700 + 2L ms before a point of time only the session's patches were sent to a recipient, then what is written to it from that point on is a delivery of those patches in the sense of the convergence results; everything received is the earlier part and this one. |
| EndToEnd.ConvergesThroughChaos | apps/server/src/services/BroadcastHub.ts:80-90 | If one send of a patch numbered k (the last dirty tick) or later is neither dropped, rolled out nor discarded, then 2700 + 2L ms later the recipient holds what the server held at k of every field of tick k, under any other loss, repetition, reordering and reconfiguration and amid any other messages, provided each of these leaves the field alone or was sent more than 2700 + 2L ms before the patches numbered k or later. |
| EndToEnd.WelcomedThenPatched | apps/server/src/services/BroadcastHub.ts:80-90 | Concrete run the result speaks of: any message, a welcome say, sent through the layer, then a patch 3 s later; both are received. |
| EndToEnd.ServerConvergesThroughChaos | apps/server/src/services/BroadcastHub.ts:80-98 | The same for every run of the whole server whose patches pass through the layer: nothing is assumed of the patches but that the server handed them over, and the recipient starts from nothing. |
| SequenceGuards.SequenceGuard.Accept | apps/server/src/models/SequenceGuard.ts:38-62 | Accepts iff finite and above everything accepted; state becomes the guard function's, the gap loop included. |
| SequenceGuards.SequenceGuard.ObservedGaps | apps/server/src/models/SequenceGuard.ts:64-67 | Exactly the recorded gaps, strictly ascending. |
| SequenceGuards.LastSeenIsMaximum | apps/server/src/models/SequenceGuard.ts:38-62 | After any offers lastSeen is the maximum offered. |
| SequenceGuards.GapExactness | apps/server/src/models/SequenceGuard.ts:38-62 | A number is a gap iff it was never offered and lies strictly inside some accepted jump of span at most 10000. |
| SequenceGuards.RepeatsAreRefused | apps/server/src/models/SequenceGuard.ts:46-49 | Offering a number again is refused and changes nothing. |
| SequenceGuards.GapsPerCall | apps/server/src/models/SequenceGuard.ts:51-56 | One call records at most 9999 new gaps. |
| Hub.BroadcastHub.RegisterConnection | apps/server/src/services/BroadcastHub.ts:48-53 | The connection replaces the pid's earlier one, and the pid is added to its session's bucket, made if need be; no other bucket changes. |
| Hub.BroadcastHub.UnregisterPid | apps/server/src/services/BroadcastHub.ts:55-63 | Unregistering removes the pid from both maps and drops an emptied bucket. |
| Hub.BroadcastHub.SendTo | apps/server/src/services/BroadcastHub.ts:80-90 | Hands the message over iff the pid is connected on an open socket. |
| Hub.BroadcastHub.BroadcastToSession | apps/server/src/services/BroadcastHub.ts:93-98 | Hands the message to each reachable member of the session but the excluded one exactly once. |
| Registry.OnlyHelloRefreshes | apps/server/src/models/applyEvent.ts:53-118 | Cursor and scroll events leave the stale set exactly as it was; a hello counts from the client's own timestamp. |
| Server.ReapedIffLastHelloOld | apps/server/src/services/SessionRegistry.ts:78-100 | In every run of the server a sweep removes a present participant iff more than ttl has passed since the timestamp of its last hello, whatever it has sent since. |
| Server.ActiveIsReaped | apps/server/src/services/Reaper.ts:52-79 | Concrete run: a participant joins, its cursor is handled, and the next sweep removes it. |
| Registry.SessionRegistry.GetOrCreate | apps/server/src/services/SessionRegistry.ts:52-58 | Returns the stored session, or stores a new empty one. |
| Registry.SessionRegistry.ReapStale | apps/server/src/services/SessionRegistry.ts:78-100 | Removes exactly the stale participants, drops exactly the sessions this empties, and reports each removed one once. |
| Server.CreatedWhenFirstNeeded | apps/server/src/services/SessionRegistry.ts:52-58 | In every run a session's creation time is that of the hello that found no such session, whatever has happened since. |
| Server.HelloIsAnnounced | apps/server/src/controllers/ConnectionController.ts:25-63 | What a new participant's hello announces is what it hands over: a join to everyone reached in the session but the newcomer, who is registered on its own socket. |
| Server.LeaveIsAnnounced | apps/server/src/controllers/ConnectionController.ts:127-147 | Likewise a leave. |
| Server.RegisterKeepsAgreementIff | apps/server/src/services/BroadcastHub.ts:48-53 | The hub's two maps stay in agreement iff the pid is not live under another session. |
| Server.UnregisterKeepsAgreement | apps/server/src/services/BroadcastHub.ts:55-63 | Unregistering keeps the maps in agreement and removes the pid from every index. |
| Server.HelloKeepsLockstepIff | apps/server/src/controllers/ConnectionController.ts:25-63 | A hello keeps hub and registry rosters in lockstep iff its pid is not live in another session. |
| Server.LeaveKeepsLockstepIff | apps/server/src/controllers/ConnectionController.ts:127-147 | A bye or close keeps lockstep iff its pid is not live in another session. |
| Server.LateCloseUnregistersElsewhere | apps/server/src/controllers/ConnectionController.ts:102-147 | Concrete run: join, bye, join another session, close of the first socket; the hub forgets the participant in the second session, the registry does not. |
| Server.ReapKeepsLockstep | apps/server/src/services/Reaper.ts:52-79 | A reaper sweep keeps lockstep. |
| Server.RosterLockstep | apps/server/src/services/BroadcastHub.ts:42-71 | When each pid is used with one session id: after every hello, bye, close, presence event, sweep and tick the hub's index equals the roster, no bucket is empty, and joins minus leaves announced is the roster size. |
| Projection.ServerRunProjects | apps/server/src/services/TickScheduler.ts:86-123 | Every run of the whole server -- all sessions, the settling map, everything handed over, sockets opening and closing -- is, seen from any one participant whose own socket is open while it is registered, a run of the one-session model; each patch handed to it is a broadcast of that run, and the last flush of that run is its session's. |
| Projection.HandedViewsAgree | apps/server/src/services/BroadcastHub.ts:80-98 | Hence after every tick of every run of the whole server the view a connected participant, its own socket open so far, has rebuilt from what was handed to it holds the server's value of every cursor and scroll of its session. |
| Projection.OnlyOpenSocketsAreHanded | apps/server/src/services/BroadcastHub.ts:80-90 | Whatever any step of the server hands over goes to a participant registered on an open socket, or is the welcome on the open socket just registered. |
| Services.TickScheduler.TickOne | apps/server/src/services/TickScheduler.ts:90-117 | One session's part of a tick: its session and settle entry become what the per-session tick says, and its patch, if any, is handed once to each reachable member. |
| Services.Reaper.Sweep | apps/server/src/services/Reaper.ts:52-79 | Everyone stale leaves registry and hub, is announced as gone to whoever is still registered, and gets an inferred end, in report order. |
| Services.ReapedAreClosed | apps/server/src/services/Reaper.ts:57-75 | After a sweep of the reaper the end of every participant reaped stands and has an inferred report of that time, and all the log gains besides reports is such ends; nothing stored is changed. |
| Controllers.HandleHello | apps/server/src/controllers/ConnectionController.ts:25-63 | Saves, binds and registers; the sender is handed a welcome listing the whole roster; a join is handed to each of the others iff the participant is new. |
| Controllers.RemoveFromSession | apps/server/src/controllers/ConnectionController.ts:127-147 | Unregisters always; only if the participant is present removes it and hands a leave once to each reachable member who stays. |
| Controllers.HandleDisconnect | apps/server/src/controllers/ConnectionController.ts:102-119 | Records a socket end iff the handshake completed and no bye was handled, then removes. |
| Controllers.HandlePresence | apps/server/src/controllers/PresenceController.ts:14-35 | Folds the event into the session and broadcasts nothing. |
| Controllers.HandleRealtimeMessage | apps/server/src/routes/realtimeRouter.ts:21-131 | Handshake, identity and guard decide; an unauthorized message is answered with an error on its own open socket; only a dispatched message has an effect, and hands over what its own handler does. |
| Controllers.AnsweredOnce | apps/server/src/controllers/AuditController.ts:41-61 | A ping is answered with its own time and every audit message, duplicates included, with its own event id, to the sender alone and iff its socket is open; cursors, scrolls and acks are not answered. |
| Controllers.DispatchedAuditIsStored | apps/server/src/controllers/AuditController.ts:13-28 | A dispatched audit message under a new id is stored with its event id, the connection's session, its pid and kind, source client and the time of handling; an end of a pair whose end stands, and a known id, add one such report to the record they repeat and touch no other. |
| Controllers.DispatchedStartOpens | apps/server/src/services/AuditLog.ts:96-113 | After a dispatched session start later than the pair's ends the pair is open: for the sweep, and for record, which stores the next end as a new record. |
| Controllers.StoredIsLastAdmitted | apps/server/src/routes/realtimeRouter.ts:93-131 | For a pid served by one connection among any other traffic: stored cursor and scroll are the last dispatched of each kind since it joined, and no stored seq exceeds the guard's lastSeen. |
| Controllers.ReducerTakesWhatGuardAdmits | apps/server/src/models/PresenceState.ts:43-60 | The reducer never rejects what the connection's guard admits. |
| Audit.AuditLog.Record | apps/server/src/services/AuditLog.ts:53-78 | Stores or folds a report as the convergence rule says; true iff a new record was stored. |
| Audit.EachEventOnce | apps/server/src/services/AuditLog.ts:53-78 | Over any run of records no event id is stored twice; an entry under a known id adds exactly its own report to that record, an end for a pair whose end stands adds it to that end, and any other entry becomes a record of its own; nothing else changes. |
| Audit.EndIsRecorded | apps/server/src/services/AuditLog.ts:65-113 | An end as late as anything in the log leaves the pair with a standing end that has its report, stored or folded. |
| Audit.AuditLog.FindOpenEnd | apps/server/src/services/AuditLog.ts:97-112 | The scan finds the first latest end when no later start has reopened the pair. |
| Audit.ReportsAreConserved | apps/server/src/services/AuditLog.ts:53-78 | The total of all reports equals the number of calls. |
| Audit.LogOnlyGrows | apps/server/src/services/AuditLog.ts:53-78 | Stored records never move and change only by appended reports. |
| Audit.StartsAndEndsAlternate | apps/server/src/services/AuditLog.ts:97-112 | With a non-decreasing clock, between two ends of a pair lies a start after the first and no later than the second. |
| Audit.EndsNeverOutrunStarts | apps/server/src/services/AuditLog.ts:53-112 | A pair has at most one more end than starts. |
| Reconciler.AuditReconciler.Sweep | apps/server/src/services/AuditReconciler.ts:48-79 | Two maps by key, then one write per overdue key: the log gains exactly the closures, in key order, and no existing record changes. |
| Reconciler.AuditReconciler.Scan | apps/server/src/services/AuditReconciler.ts:53-62 | The scan's maps hold each key's latest start and end, its order the keys' first starts. |
| Reconciler.StartKeysInOrder | apps/server/src/services/AuditReconciler.ts:53-62 | The keys swept are those with a start, in the order of their first ones. |
| Reconciler.ClosuresAreInferredEnds | apps/server/src/services/AuditReconciler.ts:64-78 | All a sweep adds are ends under the ids generated, inferred, reported once, made now, each for a pair with a start in the log. |
| Reconciler.ClosureIsCreated | apps/server/src/services/AuditReconciler.ts:64-77 | The sweep's end for an overdue key is always a new record, never folded; no assumption on session ids. |
| Reconciler.OverdueIffOpenAndUnshadowed | apps/server/src/services/AuditReconciler.ts:53-66 | For a started pair old enough: the sweep finds its key overdue by the pair's own start iff the log would store a new end for it and no other pair's record under the key hides it. |
| Reconciler.SweepClosesIffNotShadowed | apps/server/src/services/AuditReconciler.ts:53-78 | An open overdue pair is closed by a sweep iff no record of another pair with the same key hides it. |
| Reconciler.SweepClosesOverdue | apps/server/src/services/AuditReconciler.ts:64-78 | With colon-free session ids every pair whose latest start is at least ttl old is closed. |
| Reconciler.OneEndPerOverduePair | apps/server/src/services/AuditReconciler.ts:64-78 | Exactly one end is made for each open overdue pair and none for any other. |
| Reconciler.SweepTwice | apps/server/src/services/AuditReconciler.ts:48-79 | Repeating a sweep at the same time is a no-op. |
| Reconciler.KeyDeterminesPair | apps/server/src/services/AuditReconciler.ts:54-54 | The key determines the pair for colon-free session ids. |
| Reconciler.ColonCollides | apps/server/src/services/AuditReconciler.ts:54-54 | A session id with a colon after its first character shares its key with another pair. |
| Reconciler.ColonHidesOpenSession | apps/server/src/services/AuditReconciler.ts:54-66 | Concrete failure: an overdue session stays open because another pair's end shares its key. |
| Reconciler.UnclosedTimeIsBounded | apps/server/src/services/AuditReconciler.ts:9-24 | With the latest sweep at most I ago no latest start is unclosed for longer than ttl + I. |
| Chaos.ChaosMiddleware.SendMessage | apps/server/src/services/ChaosMiddleware.ts:159-184 | Drop in a partition, dispatch at once with no window, else buffer, release one on overflow and arm the hold timer. |
| Chaos.ChaosMiddleware.ReleaseIfStillBuffered | apps/server/src/services/ChaosMiddleware.ts:192-199 | The hold timer releases its own message, or does nothing if it is gone. |
| Chaos.ChaosMiddleware.FlushBuffers | apps/server/src/services/ChaosMiddleware.ts:202-210 | Each target's buffer is removed and dispatched in arrival order. |
| Chaos.ChaosMiddleware.DispatchMessage | apps/server/src/services/ChaosMiddleware.ts:212-224 | Roll for drop, deliver, roll for a second delivery. |
| Chaos.ConfiguredOk | apps/server/src/services/ChaosMiddleware.ts:24-29 | Whatever is requested, every knob stays within its ceiling. |
| Chaos.ConfiguredMeans | apps/server/src/services/ChaosMiddleware.ts:103-124 | A knob not mentioned stays; a knob mentioned gets the admissible value nearest to the request, 0 for NaN or an infinity; the window is then rounded. |
| Chaos.ExactlyOneFate | apps/server/src/services/ChaosMiddleware.ts:159-240 | Across any interleaving, timers early or late, each message sent is in exactly one of: partition-dropped, buffered once in its own recipient's buffer, reset-discarded, dispatched once; dispatched, it was rolled out or has one or two copies. |
| Chaos.DroppedIffWithinOutage | apps/server/src/services/ChaosMiddleware.ts:137-168 | Over every run a message is dropped by a partition iff the last one started before its send was not cleared by a reset and began less than its duration, clamped to 30 s, before. |
| Chaos.UndisturbedSendIsWritten | apps/server/src/services/ChaosMiddleware.ts:130-135 | With no configuration and no partition since the last reset, whatever came before it, a send is written at once, once, and nothing else happens. |
| Chaos.ResetForgets | apps/server/src/services/ChaosMiddleware.ts:130-135 | What had not been dispatched when a reset came never is, pending hold timers notwithstanding. |
| Chaos.DispatchDelays | apps/server/src/services/ChaosMiddleware.ts:212-240 | A dispatch makes no copy, one or two as its rolls fall below the rates, each due within the jitter of the latency from now; one is written at once only if the jitter reaches the latency. |
| Chaos.CopiesRollApart | apps/server/src/services/ChaosMiddleware.ts:212-240 | The copies of one dispatch are delayed by a roll each. |
| Chaos.DelayReached | apps/server/src/services/ChaosMiddleware.ts:226-228 | Every delay within the jitter of the latency is some roll's. |
| Chaos.BufferedSendReleases | apps/server/src/services/ChaosMiddleware.ts:171-190 | A send fills its recipient's buffer up to the window and then releases the entry picked, the others keeping their order; the other buffers stay, and the hold timer is due in 200 ms. |
| Chaos.FlushInOrder | apps/server/src/services/ChaosMiddleware.ts:202-210 | A flush dispatches all its targets had buffered, in order of arrival, and leaves nothing of it; the other buffers stay. |
| Chaos.BoundsHold | apps/server/src/services/ChaosMiddleware.ts:24-45 | Under any reconfiguration and however late the timers: buffers hold at most 10, every buffered message has its hold timer pending, due 200 ms after its send, and no knob is outside its ceiling. |
| Chaos.TimersMeetDeadlines | apps/server/src/services/ChaosMiddleware.ts:192-240 | If no timer fires more than L ms after it is due, none is ever overdue by more, and everything written was written within 2700 + 2L ms of its send. |
| Chaos.OnTheWireInTime | apps/server/src/services/ChaosMiddleware.ts:165-240 | If no timer fires more than L ms after it is due, then 2700 + 2L ms after its send a message neither dropped nor discarded was written once or twice, in time, and nothing of it is pending. |
| Chaos.WireInOrder | apps/server/src/services/ChaosMiddleware.ts:159-240 | In every run, however late its timers, the times of what was written to the sockets never fall. |
| ClientQueue.OutboundQueue.Enqueue | packages/client/src/transport/outboundQueue.ts:24-36 | Replaces the queued lossy message of its type in place, else appends; the index map stays exact. |
| ClientQueue.OutboundQueue.Drain | packages/client/src/transport/outboundQueue.ts:38-43 | Returns everything in order, at most one item per lossy type, and leaves the queue empty. |
| ClientQueue.EnqueuedOfItsType | packages/client/src/transport/outboundQueue.ts:29-35 | After queuing a lossy message it is the only queued one of its type. |
| ClientQueue.EnqueuedThrough | packages/client/src/transport/outboundQueue.ts:24-36 | Seen through any filter that ignores lossy messages of its type, a message is appended. |
| Handshake.TakenIff | apps/server/src/routes/realtimeRouter.ts:72-104 | A new connection given any messages dispatches number k iff a hello lies at or before it, it carries that hello's pid, and its number exceeds every number that pid sent from the first hello on. |
| Handshake.RefusedHow | apps/server/src/routes/realtimeRouter.ts:72-104 | A message is refused as unauthorized iff no hello precedes it and it is none, or its pid is not the first hello's; as stale iff it is neither and an earlier number since that hello is at least as high. |
| Handshake.NonLossyTakenIff | packages/client/src/transport/outboundQueue.ts:24-36 | In every run of a client with one pid, however it numbers what it sends and whatever was queued when a socket opened: a non-lossy message written to it is dispatched iff a hello was written at or before it, and its number exceeds that of every lossy message written in between and of every non-lossy message passed to send from that hello until itself. |
| Handshake.NumberedNonLossyTakenIff | packages/client/src/transport/outboundQueue.ts:24-36 | If the client also sends in numerical order, only lossy messages with a number at least as high, written in between, stand in the way. |
| Handshake.QueuedBeforeOpenIsLost | packages/client/src/index.ts:192-198 | When a socket opens over a queue with no hello in it and is greeted at once: what is written is some of the queue in order, all of it refused, lossless messages too, then the hello and some of what was sent since in order; of these a message is dispatched iff its number exceeds every number written from the hello on. |
| Handshake.NumberedQueueIsLost | packages/client/src/index.ts:192-198 | If the client also sends in numerical order, the server dispatches exactly what was sent since the socket opened. |
| Handshake.LateAuditIsRefused | packages/client/src/lifecycle/lifecycle.ts:50-56 | Concrete run: a session start numbered before the socket opens, and sent when the outbox has stored it, after the hello: it is refused as out of date. |
| Handshake.SentTooEarlyIsLost | apps/server/src/routes/realtimeRouter.ts:72-76 | Concrete run: a message sent before connecting is written first and refused for want of a handshake. |
| Handshake.ReplacementOvertakes | packages/client/src/transport/outboundQueue.ts:29-33 | Concrete run: behind a hello that backpressure sent back, a newer cursor takes an older one's place ahead of a ping, and the ping is refused as out of date. |
| ClientConnection.OpeningIsARun | packages/client/src/transport/connection.ts:133-137 | Handling an open event is a stretch of a run: what its status callback sends are sends like any other. |
| ClientConnection.Connection.FlushQueue | packages/client/src/transport/connection.ts:96-114 | Writes up to the first over-limit reading; requeues the rest's non-lossy messages, drops its lossy ones. |
| ClientConnection.Connection.HandleOpen | packages/client/src/transport/connection.ts:133-137 | Resets the attempt count, opens, lets the callback send, flushes. |
| ClientConnection.Connection.HandleClose | packages/client/src/transport/connection.ts:145-152 | Detaches; closed if intentional, else a reconnect is scheduled. |
| ClientConnection.QueueConservation | packages/client/src/transport/connection.ts:96-201 | Over any interleaving and any readings: non-lossy written then queued is exactly non-lossy sent, in order; each lossy type has at most its newest queued and is written as an in-order subsequence of what was sent. |
| ClientConnection.OnlyPresenceIsShed | packages/client/src/transport/connection.ts:96-114 | Of all but cursors and scrolls, what was written and then what is queued is what was sent, in every run. |
| ClientConnection.AtMostOneSocket | packages/client/src/transport/connection.ts:122-196 | Idle and closed hold neither socket nor timer, connecting and open a socket only, reconnecting exactly one of the two. |
| ClientConnection.DisconnectIsFinal | packages/client/src/transport/connection.ts:187-196 | After disconnect no socket is created until the next effective connect. |
| ClientConnection.SocketsAreThoseAskedFor | packages/client/src/transport/connection.ts:116-185 | Over every run as many sockets are created as there were connects while idle or closed and fired reconnect timers. |
| ClientConnection.AskedForIsHeld | packages/client/src/transport/connection.ts:162-185 | After each of these, whatever went before, a socket is held and no timer; it may open, or fail and set a timer. |
| ClientConnection.DisconnectCloses | packages/client/src/transport/connection.ts:187-196 | A disconnect ends in closed, at once or with the close event of the socket held, and the next connect has effect. |
| ClientConnection.BackoffDelay | packages/client/src/transport/backoff.ts:14-22 | The delay is strictly below min(10000, 250 * 2^attempt). |
| ClientConnection.BackoffDelayIs | packages/client/src/transport/backoff.ts:14-22 | Each delay below min(10000, 250 * 2^attempt) has an equal share of the random numbers. |
| ClientConnection.ReconnectDelayIsBounded | packages/client/src/transport/connection.ts:122-131 | Each reconnect delay is below min(10000, 250 * 2^n), n the failures since the last open or effective connect. |
| ClientConnection.ReconnectDelayIs | packages/client/src/transport/connection.ts:122-131 | In every run a failure sets exactly the delay that its random number picks below min(10000, 250 * 2^n), n the failures since the last open or effective connect. |

## Left out

- JSON and zod decoding, Express routes, HTTP controllers, views, logging, metrics, rate limits, the inspector: the model starts from decoded messages.
- Rendering, capture, lifecycle listeners, beacon and outbox: they act on the DOM or on storage outside the model.
- Sdk.CopresenceClient.RouteMessage: rendering and the presence, latency and follow callbacks are left out; each `Date.now()` reading is a parameter of its own.
- Cursor expiry (staleness) in the SDK: the simulation result speaks of the message handlers alone.
- Message fields no property reads: protocol version, envelope timestamps, session id on outbound messages, viewport, audit detail and reason.
- A cursor or scroll is carried as one optional point; a wire entry with x but no y, which the server never builds and both receivers ignore, has no counterpart.
- Coordinates are reals and times whole numbers (reals in the chaos layer); IEEE 754 effects, NaN coordinates and fractional sequence numbers are not modelled.
- Strings are sequences of Dafny characters; UTF-16 surrogates, which only matter to hashing and sorting of such ids, are not.
- ConvergenceReport.HashOf: how a coordinate prints is a parameter.
- ConvergenceReport.ConvergenceTracker.Report: that equal hashes mean equal views is not claimed, because FNV-1a collides on strings that differ in more than one character.
- Server restart (the tick seq returns to 0) and two live connections for one pid: the code does not handle these. StoredIsLastAdmitted assumes one connection per pid; lockstep does not need it.
- Coalescing: one session and one recipient at a time; a reap removes any participants in any order there, which includes what the TTL selects.
- Projection: assumes one session per pid, as RosterLockstep does; speaks of a participant as long as its own socket is open whenever it is registered. Replies to a ping and audit acknowledgements, which change no view, are not steps.
- EndToEnd: the server's run and the layer's are related by the patches sent, not by a common clock. A message counts as written to its recipient whichever of the recipient's sockets it was meant for.
- Handshake: the server connection lives as long as the client's socket, and nothing else speaks on it; malformed frames are not among the messages.
- Reconciler.AuditReconciler.Sweep: assumes generated ids are new and distinct; the timers that call tick, sweep and reap are steps of the runs.
- Chaos: a message is named by the index of its send, and its payload is not carried; how late timers may fire is a parameter of the two deadline results, and of no other.
- ClientConnection: sockets are counted, not represented; an errored socket the code detaches without closing is not followed further. `onMessage` is not modelled.
- The server's ws heartbeat (server.ts): only easy members.
