# FeastCloud offline sync, verified

FeastCloud's kitchen client works while its outlet edge is unreachable: every operation changes the
screen at once, is committed durably together with an event, and is sent when the edge answers again.
This project models that client, the edge store it talks to, and four self-contained parts of the same
repository, and proves what they promise. `dafny verify dfyconfig.toml` checks all of it.

## What is modelled

**The kitchen machine** (`Kitchen`, `KitchenRuns`, `Mutations`, `OrderEntry`, `Aggregators`). Orders fan out into one
ticket per station; tickets advance alone or all together; the order status is derived from its tickets;
versions count the steps. Moving a whole order is proved to be moving its stations one by one, in any
order. In every run of submissions, repairs and moves the status and the version of each order are those
its tickets imply, no move skips a step, work strictly shrinks and nothing gets stuck. What each operation
answers is stated field by field. A partner order submitted again is answered with the order that is there.

**The durable outbox** (`Outbox`, `Journal`, `OfflineStore`). One abstract value (snapshot, events,
counter, time of the last synchronization) is refined by a class with both durable forms of the source:
the localStorage journal, replaced by one write, and the IndexedDB stores, changed by one transaction.
The same operations on the two show the same lists with the same sequence numbers.

**The journal migration** (`JournalMigration`, `CrashRecovery`, `Startup`). The move of a localStorage journal into
IndexedDB, with a crash possible before or after the transaction and between the removals that follow it.
Whatever it starts from, the session that follows works on a well-formed outbox, on the database or, where
that cannot be used, on the journal (`Startup`).

**The link and the drain** (`SyncLink`, `Drain`). A transition system over commits, listings,
transmissions, deliveries (delayed or repeated), lost and refused replies, acknowledgements, failures to
record them, and crashes. The drain loop, run on either backend while operations are being committed, is
proved to be a run of it whose transmissions are known one by one.

**The edge** (`EdgeStore`, `EdgeVersions`, `Replay`, `Views`, `EndToEnd`). The Go store's own validation, transitions,
derivation of the order status, version checks and idempotency records. The log of any run of the client is
accepted by it event by event and rebuilds every status and version. Whoever else sends commands, a stale
one is refused for good and a key answers one command only. Device, link and edge together, with
pulls of the edge's state in between, agree as soon as the outbox is empty.

**The projection merge** (`Projection`, `Timestamps`, `PullDriver`, on `StableSort`). Deduplication,
the merge of edge state with pending local work, exact timestamp comparison, and the serialised driver in
which operations, pulls, outcomes and restarts interleave.

**Self-contained parts.** The menu CSV parser against an RFC 4180 printer, and against the smaller
automaton of the order import (`MenuCsv`, `Trimming`). The server-sent-event frames the core writes
against the client's chunked reader (`InboxStream`). The core's cursor pages against the collecting
client (`Pagination`). The language-pack cache and its crash points (`LanguageCache`).

Identifiers and times are natural numbers, except in `Timestamps`, where a time is its decimal text.
Fresh identifiers, replies of the network, fetched projections, catalogue, digests and text folding are
parameters. A localStorage write, an IndexedDB transaction and a cache write are one step each.

## What the proofs found

Where the code does less than one would expect, the project states it, with a concrete case, and the exact
condition under which the code does keep the promise.

- The events a receiver first sees are in the order of their numbers, except that a copy of a refused
  event may still arrive late, after its successors (`LateCopySeenOutOfOrder`). The order is strict
  exactly when this does not happen (`FirstSightingsRise`), and it never happens when events are held back
  only after the receiver has seen them (`HoldingSeenKeepsOrder`).
- An interrupted migration can queue an event again that was acknowledged long ago: the version-2 key is
  removed before the stale legacy outbox, although the comment beside the removals says that clearing
  the keys prevents this (`AcknowledgedEventReturns`). `RestartBringsBack` says exactly which events
  return and when none does.
- Migrating the same journal twice changes no event, number, counter or projection, but the first
  migration into an empty database leaves the lists in the journal's order and only the second sorts them.
  `MigrationTwice` gives the exact condition under which nothing changes at all.
- A created order does not always end up at the edge as it is on the device. An order with an
  `aggregator` field is always refused (`AggregatorOrdersRefused`), because the edge decodes its payload
  strictly and its schema has no such field; a catalogued line is routed by its own station on the device
  and by the catalogue's in the event (`OwnStationStrays`); and the edge has limits, in bytes, that the
  client does not check. `CreateReplaysIff` gives the exact condition, line by line and text by text. An
  order refused in this way stays on screen only until the next pull, which takes it away with its tickets
  (`RefusedOrderVanishes`).
- The edge carries a status change out only at the version it was formed at, and of two changes of one
  ticket at one version at most one (`OneTicketChangeWins`). Two whole-order changes at one version can both
  be carried out, because a change that only brings up lagging tickets leaves the version of the order
  (`BothOrderChangesTaken`). `OrderVersionSpentIff` and `SecondOrderChangeIff` give the exact conditions.
- The note an older client wrote for a partner order can hide the order itself and let it be taken on
  twice (`LegacyNoteDuplicates`). `SubmitKeepsSources` gives the exact condition.
- Following cursors through a list with repeated identifiers may never end (`RepeatedIdsLoop`). The
  callers of the server's pages pass keys; `CollectsListIff` gives the exact condition for any list.
- A merge can put a ticket back to where it was: a pull begins, the ticket is moved, and the move is sent
  and acknowledged before the pull's answer is merged (`EndToEnd.StalePullSetsBack` builds that run).
  `MergeSetsNothingBackIff` says exactly when a merge neither drops an entity nor shows an older version of
  it. It changes nothing of what is shown under the condition of `MergeShowsSameIff`, which every pull
  without an acknowledgement between its answer and its merge meets (`PullChangesNothing`).
- Sequence numbers above the largest safe integer are not recognised when the journal is read back. The
  counter comes back as it was exactly when it is at most that integer, or every number from that integer up
  to the counter still waits; otherwise it goes back (`SequenceSpaceEnds`), to zero when nothing waits
  (`CounterForgotten`).

## Model

| member | source | states |
|---|---|---|
| Kitchen.DecideCanAdvance | apps/web/src/domain/kitchen.ts:22-35 | The loop with the `changed` flag answers yes exactly when the order exists, has a next status, each of its tickets is there already or one step before it, and, if it has tickets, one is not there yet |
| Kitchen.DeriveAdjacent | apps/web/src/domain/kitchen.ts:349-358 | With tickets at two adjacent steps the order shows the later one while firing and preparing, and the earlier one afterwards |
| Kitchen.EachFromPartial | apps/web/src/domain/kitchen.ts:360-404 | From any half-done bulk move, moving the remaining tickets one by one, in any order, ends in the finished bulk move |
| Kitchen.BulkEqualsPerStation | apps/web/src/domain/kitchen.ts:302-404 | Whenever a whole order with tickets may advance, it does, and the snapshot is the one that advancing its outstanding tickets separately gives, in every permutation: statuses, versions, times, origins |
| KitchenRuns.CollectStationLines | apps/web/src/domain/kitchen.ts:272-276 | The loop that fills the station map computes the grouping that `GroupsPartitionLines` characterises |
| KitchenRuns.GroupsPartitionLines | apps/web/src/domain/kitchen.ts:272-277 | Every station in use gets one group, no station two, and a group holds exactly the lines routed there, in the order they were entered |
| KitchenRuns.CreateKeeps | apps/web/src/domain/kitchen.ts:241-300 | Creating an order keeps the status and version invariant of all orders |
| KitchenRuns.TicketMoveKeeps | apps/web/src/domain/kitchen.ts:360-404 | A ticket move keeps every order consistent with its tickets, and its order moves by no step or by one along the transition map |
| KitchenRuns.OrderMoveKeeps | apps/web/src/domain/kitchen.ts:302-347 | A whole-order move keeps every order consistent with its tickets, and its order takes exactly one step |
| KitchenRuns.DerivedOneStep | apps/web/src/domain/kitchen.ts:349-358 | One ticket moving one step moves the derived status by at most one step, and never to cancelled |
| KitchenRuns.RunsStayConsistent | apps/web/src/domain/kitchen.ts:241-404 | In every state any run of submissions and moves reaches, each order's status is the one derived from its tickets and each version is one plus the rank of the status |
| KitchenRuns.EmptyIsConsistent | apps/web/src/hooks/useKitchenSystem.ts:57-61 | The snapshot a connected client starts from has that invariant |
| KitchenRuns.MoveShrinksWork | apps/web/src/domain/kitchen.ts:13-20 | Every successful move leaves strictly fewer remaining ticket steps |
| KitchenRuns.AtMostFourMovesPerTicket | apps/web/src/domain/kitchen.ts:13-35 | n tickets allow at most 4n successful moves, however they are chosen |
| KitchenRuns.NotStuck | apps/web/src/domain/kitchen.ts:360-404 | Until an order is completed, some ticket of it can be advanced |
| OrderEntry.CleanedIs | apps/web/src/domain/kitchen.ts:260-262 | A typed text is kept from its first to its last character that is not white space, and dropped if there is none |
| OrderEntry.RefusedIff | apps/web/src/domain/kitchen.ts:241-251 | A submission is refused if and only if no line has a quantity and either a known item or a name and a station |
| OrderEntry.CreatedSays | apps/web/src/domain/kitchen.ts:241-299 | An accepted one becomes the first order: queued, version 1, the next number, every typed text cleaned and in its own field, its lines in the order typed, due when the slowest of them is |
| OrderEntry.CreatedFansOut | apps/web/src/domain/kitchen.ts:272-288 | And one new ticket for each station in use, in front of the others, with exactly the lines routed there; each line is on the ticket of its station |
| OrderEntry.EventSays | apps/web/src/hooks/useKitchenSystem.ts:474-504 | The event holds the order as it is, names and routes each line as the catalogue does, and only without an entry there as typed, and gives the id of the ticket at each station |
| OrderEntry.TicketMoveSays | apps/web/src/domain/kitchen.ts:360-404 | A ticket move changes that ticket by one step, its order to what the tickets now imply, by one version or not at all, and nothing else |
| OrderEntry.TicketMoveRefusals | apps/web/src/domain/kitchen.ts:360-372 | It is refused, and as what, exactly when the ticket or its order is unknown, or the ticket is over |
| OrderEntry.OrderMoveSays | apps/web/src/domain/kitchen.ts:302-347 | A whole-order move steps the order and each of its tickets that lags, and nothing else |
| OrderEntry.OrderMoveRefusals | apps/web/src/domain/kitchen.ts:302-316 | It is refused, and as what, exactly when the order is unknown or over, or its tickets are not all at the next step or right before it, or all there already |
| OrderEntry.NumbersStayFree | apps/web/src/domain/kitchen.ts:256-295 | If the next number is above all order numbers it stays so under every operation, and a new order has a number no other has |
| Aggregators.SubmitKeepsSources | apps/web/src/domain/kitchen.ts:214-239 | After a submission no two orders have the same source if and only if the first match is not an order found by its note alone while another order has the source |
| Aggregators.SubmitKeepsTidy | apps/web/src/hooks/useKitchenSystem.ts:466-512 | Without notes of older clients a submission, repairing or creating, leaves the sources distinct and no such note behind |
| Aggregators.MovesKeepTidy | apps/web/src/domain/kitchen.ts:302-404 | Nor do moves make two of them |
| Aggregators.SubmitAgain | apps/web/src/domain/kitchen.ts:207-239 | A partner order submitted again, spelled differently or with another note, is the order that is there: everything of it but note and source stays, no other order changes, none is added, and no ticket changes |
| Aggregators.SubmitRepairs | apps/web/src/domain/kitchen.ts:207-239 | A submission of a known source answers with the first order that has it, whose note and source become the new ones; nothing else of it or of the snapshot changes |
| Aggregators.SubmitCreates | apps/web/src/hooks/useKitchenSystem.ts:467-473 | A source no order is known by makes a new order like any submission |
| Aggregators.SubmissionsStayConsistent | apps/web/src/hooks/useKitchenSystem.ts:466-512 | In every run of submissions, repairing or creating, and moves each order has the status and version its tickets imply |
| Aggregators.LegacyNoteDuplicates | apps/web/src/domain/kitchen.ts:215-219 | The smallest case in which the condition fails: an older client's note in front of the order it hides |
| Outbox.SequencesNeverReused | apps/web/src/persistence/offlineStore.ts:463-516 | In every run the k-th number allocated is the starting counter plus k, whatever was acknowledged in between, and the counter moves with exactly these allocations |
| Outbox.ApplyKeeps | apps/web/src/persistence/offlineStore.ts:463-593 | Every operation leaves identities distinct, numbers increasing, and the counter above them all |
| Outbox.CommittedIsListedLast | apps/web/src/persistence/offlineStore.ts:463-532 | What was committed is listed last, numbered one above the counter and every other, and waits; the rest is listed as before |
| Outbox.CommittedAgain | apps/web/src/persistence/offlineStore.ts:467-516 | A commit without an event, or with one already stored, replaces the snapshot and nothing else |
| Outbox.EventCarriesHistory | apps/web/src/persistence/offlineStore.ts:555-593 | Whatever operations follow, an event not acknowledged stays, and its count of attempts, its being held back and its last error are what those operations say |
| Journal.NormalizeLegacyEvents | apps/web/src/persistence/offlineStore.ts:34-64 | The loops over legacy events compute the numbering that `NormalizedEvent` and `NormalizeComplete` characterise |
| Journal.NormalizedEvent | apps/web/src/persistence/offlineStore.ts:45-63 | An event without a number gets the highest number in use plus its place in chronological order |
| Journal.ChronologicalNumbers | apps/web/src/persistence/offlineStore.ts:45-58 | Of two events without a number the one that occurred first, or has the smaller id, gets the smaller number |
| Journal.NormalizeComplete | apps/web/src/persistence/offlineStore.ts:180-193 | Events that are complete are read back unchanged |
| Journal.GetAll | apps/web/src/persistence/offlineStore.ts:501 | Reading the outbox store lists each stored event once and nothing else, in an order not promised |
| OfflineStore.SortRecoversOrder | apps/web/src/persistence/offlineStore.ts:445-451 | Sorting recovers the commit order from any arrangement of the stored events |
| OfflineStore.SortedByNumber | apps/web/src/persistence/offlineStore.ts:445-451 | Any list is sorted by number, then by id, events without a number last |
| OfflineStore.OfflineStore.constructor | apps/web/src/persistence/offlineStore.ts:400-421 | A new profile is the empty abstract outbox on either backend |
| OfflineStore.OfflineStore.Open | apps/web/src/persistence/offlineStore.ts:400-421 | A profile of earlier sessions is the outbox its medium holds |
| OfflineStore.OfflineStore.CommitSnapshot | apps/web/src/persistence/offlineStore.ts:463-516 | On either backend snapshot, event and counter move together as the abstract commit does, and an event already stored is not stored again |
| OfflineStore.OfflineStore.CommitToJournal | apps/web/src/persistence/offlineStore.ts:467-487 | The journal's form of it: one write replaces all three |
| OfflineStore.OfflineStore.CommitToDatabase | apps/web/src/persistence/offlineStore.ts:489-516 | The database's form of it: one transaction that numbers the event above the stored counter and every stored event |
| OfflineStore.OfflineStore.ListOutbox | apps/web/src/persistence/offlineStore.ts:518-532 | On either backend the list is the abstract one, in commit order, with or without quarantined events |
| OfflineStore.OfflineStore.AcknowledgeOutboxEvent | apps/web/src/persistence/offlineStore.ts:534-553 | Removes exactly the event with the id and notes the time; counter and snapshot stay |
| OfflineStore.OfflineStore.ReplaceOutboxEvent | apps/web/src/persistence/offlineStore.ts:555-576 | Updates exactly the stored event with the id, on either backend |
| OfflineStore.OfflineStore.IncrementOutboxAttempt | apps/web/src/persistence/offlineStore.ts:578-584 | Counts the attempt and keeps the previous error when there is no new one |
| OfflineStore.OfflineStore.QuarantineOutboxEvent | apps/web/src/persistence/offlineStore.ts:586-593 | Counts the attempt, holds the event back and records why |
| OfflineStore.OfflineStore.LoadSnapshot | apps/web/src/persistence/offlineStore.ts:453-461 | Returns the snapshot of the last commit |
| OfflineStore.OfflineStore.GetLastSyncedAt | apps/web/src/persistence/offlineStore.ts:595-601 | Returns the time of the last acknowledgement |
| OfflineStore.RunOnBoth | apps/web/src/persistence/offlineStore.ts:453-593 | Any sequence of operations on two stores with equal contents, whichever backends they use, shows the same lists and leaves the same contents, those of the abstract run |
| OfflineStore.SequenceSpaceEnds | apps/web/src/persistence/offlineStore.ts:30-42 | A journal with increasing numbers is read back with a counter that never exceeds the written one, and equals it if and only if it is at most the largest safe integer or every number from that integer up to it still waits; past that integer it is the highest valid number plus the count of the others |
| JournalMigration.MigrationKeepsNumbers | apps/web/src/persistence/offlineStore.ts:340-376 | Migration loses no event and invents none, numbered stored events keep their numbers, all numbers differ, and the counter bounds them |
| JournalMigration.MigrationAppends | apps/web/src/persistence/offlineStore.ts:350-370 | A journal-only event is numbered above everything the database held |
| JournalMigration.MigrationKeepsJournalOrder | apps/web/src/persistence/offlineStore.ts:350-370 | Two journal-only events keep their relative order |
| JournalMigration.StoredKeepNumbers | apps/web/src/persistence/offlineStore.ts:306-316 | Merging a duplicate keeps the stored number |
| JournalMigration.MigrationCombines | apps/web/src/persistence/offlineStore.ts:306-316 | An event both media have is held back if either copy is, has the larger number of attempts, the content of the journal's copy, and the database's error only where the journal's copy has none; an event only one has stays as it is |
| JournalMigration.EmptyDatabaseKeepsNumbers | apps/web/src/persistence/offlineStore.ts:358-368 | A numbered journal taken into an empty database keeps all its numbers |
| JournalMigration.ReconcileEntities | apps/web/src/persistence/offlineStore.ts:211-246 | The map loop and sort compute the reconciled list, which the next two rows describe |
| JournalMigration.ReconciledHolds | apps/web/src/persistence/offlineStore.ts:211-250 | A reconciled list holds, in creation order and each id once, exactly the local entity where it is as new as the stored one and the stored one elsewhere |
| JournalMigration.ReconciledShows | apps/web/src/persistence/offlineStore.ts:211-250 | Every entity of either list is in it, in the same version or a newer one |
| JournalMigration.ReconciledStandsInOrder | apps/web/src/persistence/offlineStore.ts:243-250 | A reconciled list stands from the oldest to the newest, then by id |
| JournalMigration.ReconciledSnapshotSays | apps/web/src/persistence/offlineStore.ts:201-254 | Snapshots are refused exactly when they are of different outlets; otherwise outlet and known edge stay, and a next number above all orders of both is above all of the result |
| JournalMigration.ReconcileTwice | apps/web/src/persistence/offlineStore.ts:201-254 | Reconciling a list with the same local list again changes nothing |
| CrashRecovery.ReconcileSnapshotsTwice | apps/web/src/persistence/offlineStore.ts:201-254 | Reconciling a snapshot again changes no projection; it changes nothing at all if and only if a snapshot was stored, or there was no local one, or its lists were in creation order |
| CrashRecovery.MigrationAbsorbs | apps/web/src/persistence/offlineStore.ts:340-376 | After the merge the database holds the whole journal, with safe and distinct numbers below the counter |
| CrashRecovery.MigrationTwice | apps/web/src/persistence/offlineStore.ts:318-398 | Running the migration on the database it produced, with the same journal, changes no event, number, counter, time or projection, and nothing at all exactly under the condition above; so each event stays what its two copies said, held back if either was |
| CrashRecovery.LaterSyncKept | apps/web/src/persistence/offlineStore.ts:195-199 | The time of the last synchronization becomes the later of the two |
| CrashRecovery.ReconciledNotOlder | apps/web/src/persistence/offlineStore.ts:201-254 | A reconciled snapshot holds every order and ticket of both, in the same version or a newer one, each id once |
| CrashRecovery.NoOperationLost | apps/web/src/persistence/offlineStore.ts:388-397 | At every crash point each operation's event is in the database or in the journal still, and in the database once the first source key is gone; after the transaction the database has every order and ticket of both, none older |
| CrashRecovery.RestartChangesNoEvent | apps/web/src/persistence/offlineStore.ts:318-398 | A restart after a crash among the removals finds every event, number and counter as they were, unless only a stale legacy outbox is left |
| CrashRecovery.RestartMakesNothingOlder | apps/web/src/persistence/offlineStore.ts:318-398 | Nor does it make an order or ticket older; it changes none, and not the time either, unless it reads stale ones of an older client |
| CrashRecovery.RestartBringsBack | apps/web/src/persistence/offlineStore.ts:261-304 | In that case exactly the legacy events the database does not hold come back, so none if and only if it holds them all |
| CrashRecovery.AcknowledgedEventReturns | apps/web/src/persistence/offlineStore.ts:277-278 | Such a case: an event as an older client wrote it, absent from the version-2 outbox, is queued again |
| CrashRecovery.MergeJournal | apps/web/src/persistence/offlineStore.ts:341-370 | The loop over the sorted journal, with its set of used numbers, computes the merge the lemmas speak of |
| CrashRecovery.Transact | apps/web/src/persistence/offlineStore.ts:340-386 | The transaction yields the whole new database or the error that aborts it |
| CrashRecovery.BrowserProfile.MigrateLocalJournal | apps/web/src/persistence/offlineStore.ts:318-398 | A migration passes through exactly the listed crash points, one durable write at a time; it succeeds unless the two snapshots are of different outlets; when it does all four keys are gone, and when it fails nothing has changed |
| Startup.MigratedIsStore | apps/web/src/persistence/offlineStore.ts:340-386 | After a migration the database holds a well-formed outbox, sorted by number, of exactly the events of both media, each what its copies say |
| Startup.JournalIsStore | apps/web/src/persistence/offlineStore.ts:180-193 | A journal with distinct ids and numbers, numbered or not, holds a well-formed outbox of exactly its events |
| Startup.SelectBackend | apps/web/src/persistence/offlineStore.ts:400-416 | A start ends on the database with every event of both media if it opens and takes the journal in, and on the journal, with nothing changed, otherwise; either way the store represents a well-formed outbox from which the link's invariant holds |
| Startup.SessionStartsAgain | apps/web/src/persistence/offlineStore.ts:400-416 | Whatever a session on the database did, the next start can open what it left |
| SyncLink.StepKeepsInvariant | apps/web/src/sync/outbox.ts:98-125 | Every step of the protocol keeps the invariant: what was sent had nothing waiting below it, what was seen was sent, what was acknowledged was seen |
| SyncLink.RunKeepsInvariant | apps/web/src/sync/outbox.ts:98-125 | So does every run |
| SyncLink.EveryRun | apps/web/src/sync/outbox.ts:98-125 | In every run, from any well-formed store, the receiver first sees events in the order of their numbers unless they were held back, sees each acknowledged event exactly once, and every event ever committed, the stored ones included, is acknowledged, held back or waiting |
| SyncLink.FirstSightingsRise | apps/web/src/sync/outbox.ts:98-125 | The first sightings are in strictly increasing order if and only if no copy of a held-back event first arrives after a later event |
| SyncLink.HoldingSeenKeepsOrder | apps/web/src/sync/outbox.ts:107-117 | They are whenever each event is held back only once the receiver has seen it |
| SyncLink.LateCopySeenOutOfOrder | apps/web/src/sync/outbox.ts:107-117 | A run in which that happens |
| SyncLink.SeenIsPrefix | apps/web/src/sync/outbox.ts:93-97 | While nothing was held back, what the receiver has seen is a prefix of what was committed |
| SyncLink.EmptyOutboxMeansAllSeen | apps/web/src/sync/outbox.ts:93-105 | And all of it once nothing waits |
| Drain.LoopIsRun | apps/web/src/sync/outbox.ts:98-125 | However many turns the loop takes, with operations committed at every wait, it is a run of the protocol that transmits exactly what the loop recorded, its books balance, and after a failed transmission it does nothing more |
| Drain.SendHead | apps/web/src/sync/outbox.ts:107-122 | One pass of the inner loop: by the status of the reply the event is removed, or stays with one attempt more and the error, held back exactly when the status is a refusal for good; the other events stay |
| Drain.TurnByStatus | apps/web/src/sync/outbox.ts:107-122 | The same of the store, with the commits that fall into the wait: which of the three it is follows from the status, the retryable flag and whether the acknowledgement could be stored |
| Drain.SendBatch | apps/web/src/sync/outbox.ts:107-123 | The inner loop sends its listing front to back, stops at the first transient failure with its message, and shrinks the backlog when nothing arrives |
| Drain.DrainLoop | apps/web/src/sync/outbox.ts:103-124 | The outer loop ends at an empty listing or with the transient failure |
| Drain.DrainPendingOutbox | apps/web/src/sync/outbox.ts:98-125 | One drain ends for finitely many arrivals and is a run of the protocol whose transmissions are, in the order of their numbers and each once, committed events: acknowledged exactly when answered 200 to 299 with the acknowledgement stored, held back exactly when answered 400 to 499 other than 401, 403, 408, 425 and 429 and not retryable, followed by at most one whose reply was neither, which waits in front of all others; the counters match, it ends at an empty outbox otherwise, whatever reached the receiver has been seen by it; and nothing is lost or counted twice |
| Drain.OutageLosesNothing | apps/web/src/sync/outbox.ts:28-33 | Nothing is settled by a request that met an outage (no answer, 500 and above, one of those five statuses, or retryable) or after it, and every event that no longer waits was settled before it |
| Replay.TicketMoveReplays | services/edge/internal/store/store.go:525-602 | A ticket move committed on the device is accepted by an edge that mirrors it, which mirrors it again |
| Replay.OrderMoveReplays | services/edge/internal/store/store.go:604-702 | So is a whole-order move |
| Replay.CreateReplays | services/edge/internal/store/store.go:342-443 | So is a created order within the edge's limits whose lines are routed alike by the device and the event |
| Replay.OrdersMoveTogether | services/edge/internal/store/store.go:773-782 | The edge advances an order exactly when the device does, with the same version |
| Replay.CreateReplaysIff | services/edge/internal/model/model.go:350-409 | A created order is accepted and mirrored, each ticket with its station and lines, if and only if its request is not too large, it has no source, its guest name, table and note, and the name, item, station, note and quantity of each line keep the edge's limits, and each line is routed to the same station by the device and by the event |
| Replay.MirrorsIffStationsAgree | apps/web/src/hooks/useKitchenSystem.ts:489-504 | The part of it about stations, line by line, for an order within the limits |
| Replay.OwnStationStrays | apps/web/src/hooks/useKitchenSystem.ts:489-504 | An order of one catalogued line with a station of its own, not the catalogue's, never ends up at the edge as it is on the device |
| Replay.AggregatorOrdersRefused | services/edge/internal/api/server.go:412-421 | The edge refuses every order with a source |
| Replay.CommittedIsAccepted | services/edge/internal/api/server.go:412-474 | Each committed operation is one accepted mutation, remembered under its key |
| Replay.LogRebuildsState | services/edge/internal/api/server.go:412-474 | The edge, with the version checks of `EdgeVersions`, accepts the log of any run event by event, and it then has every status and version of the device |
| EdgeStore.DeriveOrderStatus | services/edge/internal/store/store.go:726-771 | The Go loop with its six flags computes the status the next row compares |
| EdgeStore.DerivationsAgree | services/edge/internal/store/store.go:726-771 | The edge's and the client's derivations agree on every set of ticket statuses, cancelled ones included |
| EdgeVersions.ExecutedAtItsVersion | services/edge/internal/store/store.go:546-548 | Whatever the state, a status change is carried out only if its expected version is the stored one |
| EdgeVersions.VersionsNeverFall | services/edge/internal/store/store.go:525-702 | Whatever commands arrive in whatever order, nothing disappears, no version falls, and no key is forgotten |
| EdgeVersions.StaleIsRefused | services/edge/internal/store/store.go:625-627 | A change formed at an older version than the edge has reached is refused in every later state |
| EdgeVersions.OneTicketChangeWins | services/edge/internal/store/store.go:546-548 | Of two changes of one ticket at one version, under different keys, at most one is carried out, whatever lies between |
| EdgeVersions.OrderVersionSpentIff | services/edge/internal/store/store.go:664-668 | A whole-order change uses up the version it was formed at if and only if it moves the status of the order |
| EdgeVersions.SecondOrderChangeIff | services/edge/internal/store/store.go:604-702 | So a second one at the same version is carried out right after it if and only if the first did not, and the second leads on from there |
| EdgeVersions.BothOrderChangesTaken | services/edge/internal/store/store.go:604-702 | A case of two that are |
| EdgeVersions.TicketChangeIff | services/edge/internal/store/store.go:525-555 | A ticket change under a new key is carried out if and only if ticket and order exist and belong together, the version is the stored one, and the step is the client's next one or cancels what is not over |
| EdgeVersions.OrderChangeIff | services/edge/internal/store/store.go:604-654 | A whole-order change if and only if the order is there at the expected version, some ticket of it has to move, and each that has to may |
| EdgeVersions.ChangeEffect | services/edge/internal/store/store.go:656-690 | A change moves exactly the tickets concerned, by one version each, and touches no other ticket and no other order |
| EdgeVersions.OrderFollows | services/edge/internal/store/store.go:773-782 | The order follows its tickets forward to what the client would derive, by one version, and not otherwise |
| EdgeVersions.CreationEnters | services/edge/internal/store/store.go:342-443 | An order is let in only under ids not used before, and then stands there as sent, with one new ticket at each station and its lines |
| EdgeVersions.KeyAnswersOneCommand | services/edge/internal/store/store.go:1022-1062 | Ever after, a key answers the command it was first used with, without doing it again, and no other |
| Views.PerformSteps | apps/web/src/domain/kitchen.ts:241-404 | Every operation moves what concerns its order forward, marked as made on the device, and leaves the rest alone |
| Views.MergeShowsSameIff | apps/web/src/domain/edgeProjection.ts:223-279 | A merge changes no identity, status, version, owner, station or line list if and only if whatever the device shows otherwise than the fetch is pending, local and newer, or unlisted and pending or active at the edge, and whatever the fetch lists is on the device |
| Views.ComesAhead | apps/web/src/hooks/useKitchenSystem.ts:221-238 | A device that moved on from a fetched state by pending events only is ahead of it in that way |
| EndToEnd.SentIsAccepted | services/edge/internal/store/store.go:1022-1062 | Whatever is in flight is accepted: a repeated event by its idempotency record, a new one because it is the next of the log |
| EndToEnd.NeverRefused | apps/web/src/sync/outbox.ts:113-117 | In an agreed system nothing is ever refused |
| EndToEnd.PullChangesNothing | apps/web/src/hooks/useKitchenSystem.ts:213-254 | In every reachable state a pull of the edge's state changes no identity, status, version, owner, station or line list on the device, provided nothing was acknowledged between its answer and its merge |
| EndToEnd.StalePullSetsBack | apps/web/src/hooks/useKitchenSystem.ts:213-254 | From any agreed start and for any ticket move: a run in which a pull begins, the move is submitted, sent, delivered, accepted and acknowledged, after which merging what the edge answered shows the ticket in an older version |
| EndToEnd.MoveGood | apps/web/src/hooks/useKitchenSystem.ts:213-305 | Every submission, exchange, delivery, refusal, pull and restart keeps the system's invariant: the edge mirrors the device's state after the last event it has seen |
| EndToEnd.EdgeFollowsDevice | apps/web/src/hooks/useKitchenSystem.ts:256-305 | In every run, pulls included, the edge mirrors one of the states the device went through, nothing is refused or held back, every acknowledged event has been handled, and a restart finds the device's last state |
| EndToEnd.EmptyOutboxMeansAgreement | apps/web/src/hooks/useKitchenSystem.ts:278-286 | When nothing is left to send, the edge holds every status and version of the device |
| Projection.DeduplicateProjections | apps/web/src/domain/edgeProjection.ts:191-207 | The map loop computes the deduplicated list the next two rows characterise |
| Projection.DeduplicatedIsFirstBest | apps/web/src/domain/edgeProjection.ts:191-207 | What is left for an id is the first of its projections with the highest version and time, one per id |
| Projection.DeduplicateInParts | apps/web/src/domain/edgeProjection.ts:209-221 | Deduplicating the parts first changes nothing |
| Projection.MergeList | apps/web/src/domain/edgeProjection.ts:228-246 | The two loops and the sort compute the merged list |
| Projection.MergedHolds | apps/web/src/domain/edgeProjection.ts:223-279 | A merge holds one projection for each id the edge sent and the device's own that survive without one, and no id twice |
| Projection.PendingSurvives | apps/web/src/domain/edgeProjection.ts:231-245 | A pending entity is never dropped, is kept unchanged when it is local and newer than anything fetched, and otherwise is itself or a fetched projection |
| Projection.SurvivesIff | apps/web/src/domain/edgeProjection.ts:231-245 | An entity of the device is still there after a merge if and only if the edge lists it, it is pending, or it is the edge's and active |
| Projection.MergeSetsNothingBackIff | apps/web/src/domain/edgeProjection.ts:223-279 | A merge keeps every entity of the device in a version at least as new if and only if each listed one is pending and local or listed no older, and each unlisted one is pending or the edge's and active |
| Projection.MergeShowsInOrder | apps/web/src/domain/edgeProjection.ts:246-278 | After a merge orders stand from the newest to the oldest, tickets by falling priority and then from the oldest, and equals with the fetched ones first, as fetched |
| Projection.NextNumberIsFree | apps/web/src/domain/edgeProjection.ts:247-251 | The next order number is above every order shown, and the least such |
| Projection.MergeProjections | apps/web/src/domain/edgeProjection.ts:281-293 | The merge of both collections, as the previous rows describe it |
| Projection.MergedTwice | apps/web/src/domain/edgeProjection.ts:223-279 | Merging the same fetch into the merged list again changes nothing |
| Projection.MergeTwice | apps/web/src/domain/edgeProjection.ts:281-293 | Nor into the whole merged snapshot |
| StableSort.FilterSort | apps/web/src/domain/edgeProjection.ts:246 | A stable sort commutes with a filter |
| StableSort.SortSuffixFirst | apps/web/src/domain/edgeProjection.ts:277-278 | Sorting a part beforehand is invisible to it |
| StableSort.SortKeepsOrder | apps/web/src/domain/edgeProjection.ts:246 | Two elements in an order the sort accepts keep that order |
| Timestamps.TextOrderIsNumeric | apps/web/src/domain/edgeProjection.ts:186 | Padded digit strings compare as the numbers they denote |
| Timestamps.CompareIsExact | apps/web/src/domain/edgeProjection.ts:175-189 | For UTC times with up to nine fractional digits the comparison is the exact order of the instants, to the nanosecond |
| PullDriver.CollectPending | apps/web/src/hooks/useKitchenSystem.ts:224-238 | The loops of a pull collect exactly the orders and tickets of waiting events, and the tickets of those orders |
| PullDriver.ActKeeps | apps/web/src/hooks/useKitchenSystem.ts:213-254 | Every act keeps all waiting events anchored on screen |
| PullDriver.RestartKeeps | apps/web/src/hooks/useKitchenSystem.ts:63-73 | Dropping demo orders at a start removes nothing a waiting event is about |
| PullDriver.DemoDropped | apps/web/src/hooks/useKitchenSystem.ts:63-73 | It drops exactly the demo orders and the tickets without an order, and the next number is above what is left |
| PullDriver.MergeShows | apps/web/src/hooks/useKitchenSystem.ts:221-250 | A pull keeps showing what each waiting event is about |
| PullDriver.PendingWorkIsShown | apps/web/src/hooks/useKitchenSystem.ts:213-254 | At every point of every run the orders and tickets of waiting events are on screen, each ticket under its order, and no id twice |
| PullDriver.PullProtectsPendingTickets | apps/web/src/hooks/useKitchenSystem.ts:224-245 | And a pull at that point keeps each pending ticket under an order it keeps too, and changes neither when they are local and newer |
| PullDriver.OrderSurvivesIff | apps/web/src/hooks/useKitchenSystem.ts:224-245 | An order on screen is still there after a pull if and only if it was fetched, an event about it waits, or it is the edge's and active |
| PullDriver.TicketSurvivesIff | apps/web/src/hooks/useKitchenSystem.ts:224-245 | So it is with tickets |
| PullDriver.RefusedOrderVanishes | apps/web/src/hooks/useKitchenSystem.ts:224-245 | In any reachable state: an order is created, its event refused and held back, and the next pull that does not list it takes it and its tickets off the screen |
| MenuCsv.ParseMenuCsv | apps/web/src/domain/menuImport.ts:106-134 | The index loop with its look-ahead computes the table the round trip speaks of |
| MenuCsv.ParseRecords | apps/web/src/domain/menuImport.ts:107-124 | Printed records are read back as they were, with any quoting and any breaks, those without text in any cell left out |
| MenuCsv.RoundTrip | apps/web/src/domain/menuImport.ts:106-134 | Parsing an RFC 4180 (section 2) printing of any records that are not empty lines returns, under the first row with a `name` or `addon_group_name`, or the first where there is none, the rows after it that show something, whatever is quoted, whichever of LF, CR and CRLF separate the records, closed or not |
| MenuCsv.NothingShown | apps/web/src/domain/menuImport.ts:125 | A file without such a row is an empty table |
| MenuCsv.ParseLine | apps/web/src/domain/corePlanning.ts:14 | The one-line loop computes the cells the next row compares |
| MenuCsv.AutomataAgree | apps/web/src/domain/corePlanning.ts:14 | On one line both automata read the same cells, up to trimming, unclosed quotes and blank rows |
| InboxStream.Producer.Send | services/core/internal/api/connected_commerce.go:182-199 | After any polls the text written is the frames of the polled bodies without consecutive repetitions |
| InboxStream.DeliverEvents | apps/web/src/domain/coreCommerce.ts:164-171 | The inner loop delivers every complete event and leaves a buffer without a boundary |
| InboxStream.EventLineByLine | apps/web/src/domain/coreCommerce.ts:168-169 | An event is what its data lines say, trimmed and joined by line breaks; other lines say nothing |
| InboxStream.OneLineEvent | apps/web/src/domain/coreCommerce.ts:168-169 | An event without data is not delivered |
| InboxStream.StreamConnectorInbox | apps/web/src/domain/coreCommerce.ts:151-173 | The reading of any chunks is the reading of their concatenation |
| InboxStream.ReadInParts | apps/web/src/domain/coreCommerce.ts:159-172 | Reading a text in two parts, carrying the buffer over, is reading it in one |
| InboxStream.ClientSeesChanges | services/core/internal/api/connected_commerce.go:181-214 | However the text is cut, the client delivers exactly the server's bodies in order, consecutive duplicates removed, and keeps nothing |
| InboxStream.ClientSeesPrefix | apps/web/src/domain/coreCommerce.ts:160-172 | Cut off anywhere, it has delivered a prefix of them |
| InboxStream.LeftoverHasNoBoundary | apps/web/src/domain/coreCommerce.ts:164-171 | What is left over never contains a complete boundary |
| Pagination.WritePaginated | services/core/internal/api/handlers.go:835-887 | The search loop and the slice compute the page, or the error for a bad limit or an unknown cursor |
| Pagination.PageAnswers | services/core/internal/api/handlers.go:835-887 | A limit outside 1 to 200 and a cursor no item has are errors; otherwise the page is what follows the first item with the cursor's id, up to the limit or 50, with a next cursor exactly when more follows |
| Pagination.FilterSlice | services/core/internal/api/handlers.go:897-905 | Keeps exactly the elements to keep, in order |
| Pagination.ListAll | apps/web/src/domain/coreOrganization.ts:133-148 | Following the cursors through a list with unique ids ends and returns exactly the list, for every valid limit |
| Pagination.CollectsListIff | apps/web/src/domain/coreOrganization.ts:133-148 | Through any list that does not change, ids repeated or not, following the cursors ends with exactly the list if and only if every page but the last ends at the first item of its id |
| Pagination.RepeatedIdsLoop | services/core/internal/api/handlers.go:858-865 | When the first two pages end with the same id, at any page size, the collection never completes |
| Pagination.DeliveredOnce | services/core/internal/api/handlers.go:850-879 | Over changing lists that keep their order, an element not passed by the cursor is delivered exactly once |
| Pagination.PersistentItemsOnce | apps/web/src/domain/coreOrganization.ts:133-148 | So a collection that completes holds each element present throughout exactly once |
| LanguageCache.RestoreVerifiedLanguageBundle | apps/web/src/i18n/index.ts:317-341 | Installs all the packs of the index, each with its checksum, or none |
| LanguageCache.LanguagePackCache.PutPacks | apps/web/src/i18n/index.ts:359-361 | Writes the packs under their checksums, recording every state in between |
| LanguageCache.LanguagePackCache.Prune | apps/web/src/i18n/index.ts:372-378 | Removes what is not retained and nothing that is |
| LanguageCache.LanguagePackCache.PersistVerifiedLanguageBundle | apps/web/src/i18n/index.ts:343-379 | Packs first, index next, removals last; the states passed through are those of these writes |
| LanguageCache.CrashLeavesOldOrNew | apps/web/src/i18n/index.ts:357-378 | After any number of its writes a restore gives the whole old bundle until the index is written and the whole new one from then on |
| LanguageCache.CacheIsAtomic | apps/web/src/i18n/index.ts:317-379 | Whatever persists ran, in whatever order of puts and removals, wherever each was cut off, a restore reads the bundle of the last one that reached its index |

## Left out

- OfflineStore.OfflineStore.CommitSnapshot: like the runs over it, asks for a counter below the largest safe integer, because beyond it the journal no longer recognises its own numbers, as `SequenceSpaceEnds` says.
- CrashRecovery.NoOperationLost: asks for distinct event ids in the journal and in the database, distinct ids of orders and tickets in both snapshots, and numbers that stay below the largest safe integer.
- PullDriver.PullProtectsPendingTickets: assumes that the edge never moves a ticket to another order. Nothing is claimed of a fetch made before an event was sent and merged after it was acknowledged: the event is no longer pending then.
- EndToEnd.EdgeFollowsDevice: covers orders without a source, within the edge's limits and with lines routed alike, from a start in which device and edge agree. A pull reads the edge at one instant and in full, where the client sends one request per status, each for at most 500 entries, and it is merged only if nothing was acknowledged since.
- MenuCsv.RoundTrip: lower-casing of header names is modelled for ASCII letters, trimming for the characters listed in `Trimming`.
- InboxStream.ClientSeesChanges: bodies are JSON texts, which hold no line break and are not blank; decoding of UTF-8 across chunks is not modelled.
- Several tabs, and scope discovery running beside a drain. Holding events of another outlet back is a step of `SyncLink`, the lookup that leads to it is not modelled.
- `createUuidV7` and random bytes: identifiers are fresh by assumption. The idempotency key is the event id, to which the event builders set it.
- Order type, priority and targets: carried along by the source and never decided on, except that the edge checks that the type is one it knows. Localized names reach the model as the name the catalogue gives for a line.
- Replay.CreateReplaysIff: the bytes of a text, as it is and trimmed, and which requests are below the edge's body limit are parameters (`Setup`). Ids are UUIDs by assumption, and the envelope's tenant, outlet and device are those of the edge.
- Drain.SendHead: when the store fails while holding an event back or recording a failure, the source's drain throws; the model has that failure only for acknowledgements.
- Startup.SelectBackend: the database opens or not, as a parameter; local storage works. Copies of events that an earlier session sent and that are still under way are covered within one run of the link, by its crash step, not across the migration.
- Corrupt journals, unavailable storage and the IndexedDB version upgrade: a migration that fails before its transaction changes nothing.
- HTTP, authentication, pairing, transmission without an edge address, background sync and the flags that coalesce flushes and pulls.
- Stored times are compared as numbers, not as locale-collated text, except in `Timestamps`.
- Base64 of page cursors and the cache API's requests: taken as injective. Validation of language packs, size limits and origins: a pack is what its checksum says.
- The menu review (`parseAddonGroups`, `reviewPetpoojaMenu`), price conversion, the other Go handlers, and everything on screen: they would add only easy members or are not faithfully expressible.
- Order numbers at the edge, ticket priorities and targets, the texts of an order, the operation log and cloud synchronization: the mirror compares identities, orders, stations, line lists, statuses and versions.
