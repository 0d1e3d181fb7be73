# BrainVault: preserving what was typed

A Dafny model of the part of BrainVault's browser code that must not lose data, with proofs that it does not.
`dafny verify dfyconfig.toml` checks the whole project.

* **Durable recovery storage** (`RecoveryMirror`, `RecoveryInvariants`, `RecoveryMirrorProofs`, `RecoveryReceiptProofs`,
  `RecoveryConvergence`, `RecoveryPeers`, `RecoveryRefresh`, `RecoveryProgress`, `RecoverySerial`,
  `RecoveryTransactions`, `RecoveryCalls`, `RecoveryStorage`). One tab keeps a synchronous map over a FIFO of atomic
  transactions that may abort, while peers change the store under it. Every call, commit, abort, continuation,
  notification and turn of a refresh or a flush is one event; a sequence of events is one interleaving. The class
  `Storage` is the mutable object, with a method for what the tab itself does in each event.
* **Legacy receipts** (`LegacyReceipts`, `LegacyOutcomes`). The database all tabs share, with the migration and the
  lineage receipt of each key; every event is one transaction of some tab, `clear()` included.
* **Collaboration durability** (`CollaborationDurability`, `CollaborationOutcomes`). Any number of tabs of one page:
  persist, apply live, send, count acknowledgements, remove by exact generation. A Yjs document is the set of the
  updates it has integrated.
* **Block hierarchies** (`DepthFirst`, `BlockForest`, `BlockDeletion`, `InsertionPlan`, `InsertionOutcomes`,
  `TreeRepair`, `OutlineEdits`). Replacing and deleting blocks, planning a confirmed insertion, repairing and editing an
  outline.
* **Queues, locks, leases, history** (`SaveQueue`, `SaveQueueProofs`, `SaveQueueOutcomes`, `LatestWriteQueue`,
  `WriterLocks`, `WriterLockOutcomes`, `LeaseFence`, `LeaseOutcomes`, `EditorHistory`, `EditorHistoryProofs`,
  `EditorHistoryOutcomes`).
* **Shared types** (`SharedText`, `SharedShapes`, `SharedTypes`). Writing a plain value into the `Y.Text`, `Y.Array` and
  `Y.Map` objects that already stand there, in place.
* **Page drafts** (`PageDrafts`, `PageDraftProofs`, `PageDraftOutcomes`, `PageDraftStores`). The recovery record of one
  page and one source, which its own tab writes plainly and every other tab only after comparing with the record it saw.
* **Scanners and indexes** (`JsonText`, `JsonScanner`, `DuplicateKeys`, `HighlightedHtml`, `LuaHighlight`, `LuaTokens`,
  `StorageSnapshot`, `DatabaseIds`, `DatabaseAliases`, `DatabaseNormal`, `DatabaseIdempotence`, `DatabaseCells`,
  `DatabaseDocument`, `DatabaseOutcomes`).

Objects the code mutates are classes whose methods are proved equal to the step functions of the state machines; the
theorems are about all runs of those step functions. "Reachable" always means: after any sequence of events. The invariants
say what an operation must not do. The modules whose names end in "Outcomes", with `RecoveryTransactions`, `RecoveryCalls`
and `LuaTokens`, say what each one achieves, in terms of its arguments and of what is stored and shown, and follow
single operations through whole runs.

## Assumptions

* IndexedDB runs the transactions of one connection in order, each all or nothing; Web Locks keep one FIFO queue per
  name; a WebSocket delivers in order and an acknowledgement answers the oldest message of its connection.
* Fingerprints are collision free, encodings of storage keys are injective, and `localeCompare` is a total order on ids
  (ids are numbers in that order where only their order matters; 0 then stands for the empty string).
* Collaboration: the edit permission stays constant (`public/collaboration.js:537`), the host does not veto a restore
  (`public/collaboration.js:582-585`), there is no bootstrap retry after close code 4012
  (`public/collaboration.js:1636-1648`), one document epoch, and no local-origin attachment update writes over the
  recovery key (`public/collaboration.js:538`). On connection a tab reads its own record as it is stored, or as the draft it
  last tried to store; other sources' records may be stale or missing.
* A peer's `clear()` is one transaction, and its message has no key.
* Leases: each operation of a tab on shared storage is one step, and tokens are never drawn twice.
* Writer locks: the guarded action settles by itself, that is, it does not wait for another writer lock.
* Database cells and filters: turning a value into a number is left open, but a number is its own reading.
* JSON scanner: the text has been accepted by `JSON.parse`, so it has a derivation in the grammar of RFC 8259.

## Where the code does less than one may expect

* The mirror may stay behind the store. `RecoveryPeers.BehindExactly` says, for every step, when it leaves a key behind: a
  peer's change, a reading that a peer has outrun, and the end of the key's newest mutation when it knows something else
  than is stored. Nothing but a write, a deciding reading or a peer's change brings it back
  (`RecoveryConvergence.BehindStays`). Without peers it takes a failed transaction of the key's newest mutation:
  * an aborted comparison (`AbortedComparisonLeavesMirrorBehind`), exactly when mirror and store disagreed already
    (`AbortedComparisonLeavesBehindExactly`). A page avoids this by not calling a mutation of a key while a comparison of
    that key is queued (`RecoverySerial.SerialRunConverges`);
  * a removal that fails and cannot read the store back (`OutdatedReceiptLeavesMirrorBehind`), exactly when its receipt is
    outdated (`FirstFailedReadBackIsRightExactly`).

  With neither, every run converges (`SmoothRunConverges`). `Converges` and `FlushMeansStored` speak of the keys that are
  not behind.
* A refresh spares keys that were mutated after it began, and its return still clears the mark that a notification could not
  be read (`public/indexeddb-recovery-storage.js:1255-1262`): the mirror is behind, and `flush()` resolves
  (`RecoveryRefresh.RefreshForgetsFailedReading`). A refresh that returns has repaired a key if and only if the key was not
  mutated since the call, or was right anyway (`RefreshRepairsExactly`); a key that was behind and is newer stays behind
  (`OlderReadingsSpare`); and a resolving flush leaves no other key behind on account of a lost notification
  (`FlushLeavesForgotten`).
* A tab compares before it writes another tab's draft record, but not before it writes its own
  (`public/draft-store.js:747-767`): the check before it reads only the tab's own copy. A draft that a guest saved into the
  record can thus be overwritten unseen (`PageDraftProofs.GuestSaveCanBeLost`). In every reachable state a draft is lost
  exactly when the owner's plain write settles over a part that is neither in what it writes nor superseded
  (`DraftsAreLostExactly`). The owner can tell before it calls: it loses exactly what its copy does not show
  (`WriteLosesWhatCopyMisses`) and what a guest saves before the write settles (`GuestSaveInBetweenIsLost`). Runs without
  either lose nothing (`DraftsAreKeptOrSuperseded`).
* Undefined is stored as null but compared as undefined, so writing such a value again edits the document again;
  `SharedShapes.UndefinedIsWrittenAgain` says that it happens for no other value.
* An oversized change or a discard breaks the undo chain; `OversizedBreaksChain` and `DiscardBreaksChain` say exactly when,
  and `OversizedLosesBaseline` and `DiscardForgetsBaseline` are runs in which it does.
* A filter's text is cut to 2000 characters, and what is left may, trimmed and cut, be the name of an option, for which a
  second normalization then takes it (`DatabaseDocument.IndentedTextSlips`). `DocumentIsIdempotentExactly` says that nothing
  else of a document changes.
* An id is trimmed before it is cut to 64 characters, so the cut may end in whitespace and a second normalization changes
  it; `DatabaseIds.SafeIdTwice` says exactly when.

## Model

| member | source | states |
|---|---|---|
| RecoveryConvergence.Converges | public/indexeddb-recovery-storage.js:601-635 | after every interleaving of sets, removals, comparisons, refreshes, notifications, peers and aborts, a drained queue leaves each key equal to the durable value or an uncommitted draft, unless it was put behind and not brought back since |
| RecoveryPeers.BehindExactly | public/indexeddb-recovery-storage.js:452-540 | in every reachable state, when a step leaves a key behind, that is idle, no draft and not shown as stored: for each kind of step, an if and only if on the state before it |
| RecoveryConvergence.SmoothRunConverges | public/indexeddb-recovery-storage.js:601-635 | without peers, aborted comparisons and failed read-backs, whatever else interleaves and aborts, a drained queue leaves every key stored as shown or an uncommitted draft |
| RecoverySerial.SerialRunConverges | public/indexeddb-recovery-storage.js:954-1018 | the same with aborted comparisons, if no mutation of a key is called while a comparison of it is queued |
| RecoverySerial.StepKeepsSerial | public/indexeddb-recovery-storage.js:954-1018 | under that discipline every step keeps each queued comparison in front of a mirror that is right, or of a write or removal that will make it right |
| RecoveryCalls.CallGoesThrough | public/indexeddb-recovery-storage.js:884-1086 | from any state with an empty queue, whatever happens to other keys meanwhile: a set, a removal, or a comparison of a key without draft, that is called, commits and continues leaves store and mirror both with the value asked for, both without the key, or, unmatched, both with what was stored, and no draft of the key |
| RecoveryCalls.HeadGoesThrough | public/indexeddb-recovery-storage.js:884-1086 | the same for any call that is at the head of the queue as the newest one on its key |
| RecoveryTransactions.ComparisonCommits | public/indexeddb-recovery-storage.js:972-1059 | a matched comparison leaves the key exactly at the replacement, for compareAndSet and a legacy put, or without a record, for compareAndRemove and a legacy removal; an unmatched one changes nothing, and no other key ever changes |
| RecoveryTransactions.WriteCommits | public/indexeddb-recovery-storage.js:618-633 | a set leaves its value under the key and a removal nothing, and every other key as it was |
| RecoveryTransactions.ComparisonMayMatch | public/indexeddb-recovery-storage.js:975-987 | a comparison can match exactly what is stored, but that a legacy put can match where nothing is |
| RecoveryCalls.CallQueues | public/indexeddb-recovery-storage.js:601-616 | a call puts its own operation at the end of the queue under a newer generation than any before |
| RecoveryCalls.CallShows | public/indexeddb-recovery-storage.js:884-916 | at once a set shows its value, a removal hides the key and a comparison changes nothing that is shown |
| RecoveryPeers.TabsConverge | public/indexeddb-recovery-storage.js:496-532 | once every change of a peer has been followed by its notification and nothing is under way, each key shows the durable value, except drafts and keys this tab's own failures have left behind |
| RecoveryPeers.StepKeepsPeers | public/indexeddb-recovery-storage.js:496-532 | every event keeps, for each key that is behind, a cause on record or a reading still to come that will decide it |
| RecoveryRefresh.RefreshForgetsFailedReading | public/indexeddb-recovery-storage.js:1244-1263 | a concrete run in which a refresh clears the mark of a failed reading, the mirror stays behind and a flush resolves |
| RecoveryRefresh.ReadingDecidesExactly | public/indexeddb-recovery-storage.js:452-475 | a reading that is still current makes a key agree if and only if the key was not mutated since the refresh was called, or agreed already |
| RecoveryRefresh.RefreshRepairsExactly | public/indexeddb-recovery-storage.js:1244-1263 | after every run, a refresh that takes over its last reading and returns leaves a notified key that is no draft as stored if and only if it was not mutated since the call, or agreed already |
| RecoveryRefresh.ReturnedRefreshLeavesOnlyNewer | public/indexeddb-recovery-storage.js:1244-1263 | however late it returns, alone it leaves behind only keys mutated since its call, but drafts, keys still to be notified and keys another refresh has since failed to read |
| RecoveryRefresh.OlderReadingsSpare | public/indexeddb-recovery-storage.js:452-475 | over any run a key that is behind stays so through all readings and returns asked for before its last mutation |
| RecoveryRefresh.FlushLeavesForgotten | public/indexeddb-recovery-storage.js:1208-1233 | a flush resolves with a key behind and no own failure to blame only if the key's notification could not be read and the key was mutated after the call of the refresh that returned last |
| RecoveryRefresh.StepKeepsHistory | public/indexeddb-recovery-storage.js:496-532 | every event keeps, for each key that is behind, who has left it there: a peer still to notify, a failed transaction, a refused refresh, or a lost notification |
| RecoveryConvergence.DraftsStayVisible | public/indexeddb-recovery-storage.js:884-953 | in every reachable state each uncommitted write shows its own draft in the mirror, under all aborts, failed read-backs, late notifications and stale refreshes |
| RecoveryConvergence.TokensLeaveOnlyBy | public/indexeddb-recovery-storage.js:618-635 | a write token leaves only by the commit of that very write, a newer set, or an explicit removal |
| RecoveryConvergence.FlushMeansStored | public/indexeddb-recovery-storage.js:1208-1233 | whatever is set, removed or notified between the turns of its loop, when a flush resolves the queue is empty, no notification is in flight, nothing has failed since it began, no draft is uncommitted, and each key that is not behind is stored as shown |
| RecoveryProgress.EveryFlushSettles | public/indexeddb-recovery-storage.js:1208-1233 | from every reachable state, if nothing further is called and nothing fails, every order of going on ends within a bound, and at rest every flush has settled, the queue is empty and no reading is under way |
| RecoveryProgress.FlushAnswers | public/indexeddb-recovery-storage.js:1218-1233 | what it then answers follows from the state it was in: failed if a write had failed after its boundary, drafts if the write of one was no longer queued, stale if a notification was lost and no refresh has returned since, and otherwise it resolves |
| RecoveryCalls.FlushReportsExactly | public/indexeddb-recovery-storage.js:1208-1233 | over any run between its begin and its end, a flush reports a write failure if and only if one was reported to it after what flushes had reported when it began |
| RecoveryCalls.FlushTurnDoes | public/indexeddb-recovery-storage.js:1217-1233 | a turn that finds more to await goes on with it, any other ends the flush, and only a reported failure moves the mark |
| RecoveryCalls.ReadingBegins | public/indexeddb-recovery-storage.js:496-515 | a notification is numbered and waits for the one before, a refresh covers every key, and both remember the time of the call |
| RecoveryCalls.FailedReadingDoes | public/indexeddb-recovery-storage.js:517-532 | a reading that fails is dropped, and only that of a notification marks the mirror as possibly stale |
| RecoveryConvergence.AbortedComparisonLeavesBehindExactly | public/indexeddb-recovery-storage.js:954-1018 | an aborted comparison leaves the mirror behind if and only if mirror and store disagreed and it was the newest mutation of a key without a draft |
| RecoveryConvergence.FailedReadBackIsRightExactly | public/indexeddb-recovery-storage.js:922-947 | with a receipt nothing unsure has touched, a removal that fails and cannot read back shows what is stored if and only if its receipt is not outdated |
| RecoveryConvergence.FirstFailedReadBackIsRightExactly | public/indexeddb-recovery-storage.js:922-947 | the first failed read-back of a run without peers and aborted comparisons shows what is stored if and only if the removal's receipt is not outdated |
| RecoveryConvergence.BehindStays | public/indexeddb-recovery-storage.js:452-532 | a key that is behind stays behind until it is written again, a reading decides it or a peer changes it |
| RecoveryConvergence.AbortedComparisonLeavesMirrorBehind | public/indexeddb-recovery-storage.js:997-1018 | a concrete run in which two comparisons, the second aborted, leave mirror and store different |
| RecoveryConvergence.OutdatedReceiptLeavesMirrorBehind | public/indexeddb-recovery-storage.js:383-407 | a concrete run in which a failed removal with an outdated receipt hides what is stored |
| RecoveryConvergence.StepKeeps | public/indexeddb-recovery-storage.js:850-1086 | every event keeps the invariant that ties mirror, tokens, generations, queue, readers and removal receipts together |
| RecoveryConvergence.RunKeeps | public/indexeddb-recovery-storage.js:850-1086 | the same over every run |
| RecoveryMirrorProofs.SetItemKeeps | public/indexeddb-recovery-storage.js:884-906 | a set keeps drafts visible, the queue ordered by generation and refreshes fenced |
| RecoveryMirrorProofs.RemoveItemKeeps | public/indexeddb-recovery-storage.js:907-953 | so does a removal that hides the key and takes or shares a deletion snapshot |
| RecoveryMirrorProofs.AbortedKeeps | public/indexeddb-recovery-storage.js:918-947 | so does the rollback of an aborted removal that still owns its key |
| RecoveryMirrorProofs.ApplyKeepsAgreement | public/indexeddb-recovery-storage.js:452-475 | a refresh decides only keys without newer local mutations, so settled keys keep agreeing with the store |
| RecoveryReceiptProofs.StepKeepsReceipts | public/indexeddb-recovery-storage.js:383-407 | the receipt of a queued removal keeps naming what the store holds once everything before it has settled |
| RecoveryStorage.Storage.Set | public/indexeddb-recovery-storage.js:884-906 | the in-place update of a set is exactly the set event |
| RecoveryStorage.Storage.CaptureRemovalSnapshot | public/indexeddb-recovery-storage.js:383-394 | repeated removals of a key share one snapshot of what was visible |
| RecoveryStorage.Storage.Remove | public/indexeddb-recovery-storage.js:907-953 | the in-place update of a removal is exactly the removal event |
| RecoveryStorage.Storage.CompareAnd | public/indexeddb-recovery-storage.js:954-965 | a comparison takes a generation and a queue place and leaves the mirror alone; what its transaction then does is ComparisonCommits |
| RecoveryStorage.Storage.TransactionCompletes | public/indexeddb-recovery-storage.js:618-635 | a commit leaves the durable key at the value written, at the replacement or removed as its comparison matched, and every other key alone; an abort changes nothing |
| RecoveryStorage.Storage.ReconcileRemovalSnapshot | public/indexeddb-recovery-storage.js:396-407 | what a comparison saw becomes the fallback of a pending removal unless that holds an open draft or is newer |
| RecoveryStorage.Storage.AfterPut | public/indexeddb-recovery-storage.js:618-635 | a committed write releases its own token and no newer one |
| RecoveryStorage.Storage.AfterDelete | public/indexeddb-recovery-storage.js:850-882 | a committed removal marks its snapshot and gives up its key only if it still owns it |
| RecoveryStorage.Storage.AfterComparison | public/indexeddb-recovery-storage.js:997-1018 | a committed comparison reaches the mirror only if no newer mutation or draft exists |
| RecoveryStorage.Storage.AfterFailedDelete | public/indexeddb-recovery-storage.js:918-947 | a failed removal restores the open draft it replaced, or reads the store back |
| RecoveryStorage.Storage.AfterReadBack | public/indexeddb-recovery-storage.js:922-947 | it then shows the durable copy, or the last known one when the read fails |
| RecoveryStorage.Storage.ApplyExternalChange | public/indexeddb-recovery-storage.js:496-532 | a message of a peer joins the chain of readings with the generations of its moment |
| RecoveryStorage.Storage.Refresh | public/indexeddb-recovery-storage.js:1244-1246 | a refresh starts with the generation and the queue of its moment |
| RecoveryStorage.Storage.RefreshTurn | public/indexeddb-recovery-storage.js:1253-1262 | it reads again while notifications come, and otherwise ends and clears the failure mark |
| RecoveryStorage.Storage.ApplyReading | public/indexeddb-recovery-storage.js:452-475 | what was read replaces exactly the entries that are no draft and no newer mutation |
| RecoveryStorage.Storage.BeginFlush | public/indexeddb-recovery-storage.js:1208-1220 | a flush takes its failure boundary and both tails |
| RecoveryStorage.Storage.FlushTurn | public/indexeddb-recovery-storage.js:1217-1233 | one turn of its loop: again, one of three failures, or done |
| LegacyReceipts.NativeGenerationSurvivesLegacy | public/indexeddb-recovery-storage.js:637-848 | no legacy put, legacy removal or migration pass of any tab overwrites or removes a natively written generation, even one of equal bytes |
| LegacyReceipts.LineageNamesTheRecord | public/indexeddb-recovery-storage.js:227-341 | in every run a lineage receipt implies that the current record is the import it names |
| LegacyReceipts.EqualBytesAreNotEnough | public/indexeddb-recovery-storage.js:768-848 | a native record that equals the removed legacy bytes survives the late legacy removal |
| LegacyReceipts.ImportAdvancesReceipt | public/indexeddb-recovery-storage.js:675-701 | an import never repeats the value the migration receipt names, and renames the receipt |
| LegacyReceipts.ReceiptIsKept | public/indexeddb-recovery-storage.js:1103-1154 | nothing erases a migration receipt, clear included; only legacy work renames it |
| LegacyReceipts.NoSecondImport | public/indexeddb-recovery-storage.js:253-259 | while the receipt names a value, no restart, pass or repeated event imports it again |
| LegacyReceipts.RemovedImportStaysAway | public/indexeddb-recovery-storage.js:253-259 | an imported, then removed or cleared value stays away as long as only that old legacy value is around |
| LegacyOutcomes.LegacyRoundTrip | public/indexeddb-recovery-storage.js:637-848 | a legacy value comes in on a key that has neither a record nor its receipt, and whatever passes, repeats, clears and work on other keys follow, its own legacy removal leaves no record and no lineage, and remembers the import |
| LegacyOutcomes.ImportIsRemoved | public/indexeddb-recovery-storage.js:768-848 | the same from any state that holds the import; the removal finds the record itself unless something else has taken it |
| LegacyOutcomes.ImportIsFollowed | public/indexeddb-recovery-storage.js:637-766 | in the same runs a legacy put that names the import as its predecessor replaces it, stored or removed |
| LegacyOutcomes.LegacyRemovalDoes | public/indexeddb-recovery-storage.js:768-848 | a legacy removal answers true if and only if the stored bytes are those it names and the lineage receipt names them; then record and lineage go and the migration receipt stays, and otherwise nothing changes |
| LegacyOutcomes.LegacyPutDoes | public/indexeddb-recovery-storage.js:637-766 | a legacy put is taken over if and only if its value is not the one last imported and its predecessor is what the store has; then record and both receipts say so, and otherwise nothing changes |
| LegacyOutcomes.PassBringsLegacyIn | public/indexeddb-recovery-storage.js:209-341 | in every run, after a pass that goes through and saw a key as it is, a key without a record, or with an import its source has moved on from, holds the legacy value, unless that very value was imported before |
| LegacyOutcomes.PassDoes | public/indexeddb-recovery-storage.js:227-341 | what a pass that goes through makes of each key, told by what was stored: imported, kept with a receipt, or left alone |
| LegacyOutcomes.PassGoesThroughExactly | public/indexeddb-recovery-storage.js:301-331 | a pass goes through if and only if every key that needs work is still as the tab saw it, and otherwise changes no key |
| LegacyOutcomes.NativeWorkDoes | public/indexeddb-recovery-storage.js:618-633 | a native write, removal or matching comparison leaves its value or nothing, takes the lineage and keeps the migration receipt |
| LegacyReceipts.ObjectStore.PutLegacyRecord | public/indexeddb-recovery-storage.js:637-766 | one transaction writes record and both receipts if and only if the receipt is new and the named predecessor matches |
| LegacyReceipts.ObjectStore.RemoveLegacyRecord | public/indexeddb-recovery-storage.js:768-848 | one transaction answers true, and removes record and lineage but not the migration receipt, if and only if bytes and lineage are exactly those; otherwise nothing changes |
| CollaborationDurability.NoAppliedMutationIsLost | public/collaboration.js:730-874 | after any run of any number of tabs every applied mutation is on the server or in its source's durable record |
| CollaborationDurability.ReopenedTabHasPromises | public/collaboration.js:565-640 | a tab that reopens after a crash has every unacknowledged mutation of its source once it has connected |
| CollaborationDurability.NothingPendingMeansSaved | public/collaboration.js:1522-1600 | with nothing counted and nothing to resend the server has the whole live document |
| CollaborationOutcomes.LiveIsGained | public/collaboration.js:565-640 | until a tab is opened anew its document is what it was and every update that arrived, was merged from the records it read, came with the bootstrap of a blank page or was applied here, and nothing else |
| CollaborationOutcomes.OpenedTabHasGained | public/collaboration.js:1405-1432 | from the opening on, whatever the history of the page, the document is exactly what this session has brought in |
| CollaborationOutcomes.SyncDoes | public/collaboration.js:1522-1554 | the first synchronization of a blank page fills the document with the bootstrap and no other changes it; the whole document is then sent after a bootstrap and after anything that may not have reached the server, and if the socket does not take it, it stays to be resent |
| CollaborationOutcomes.FirstOpenReachesServer | public/collaboration.js:1522-1600 | a page opened for the first time is filled with the bootstrap, sends it, and once that message is kept the server has the page |
| CollaborationOutcomes.KeptMeansSaved | public/collaboration.js:1572-1600 | after every run, once the server has kept all that is on its way to it and nothing must be resent, it has the whole document |
| CollaborationOutcomes.MutationCompletes | public/collaboration.js:730-874 | from every tab at rest a mutation that nothing disturbs is saved, applied, sent, kept and acknowledged, its record goes, and the tab is at rest with the update on the server and in its document |
| CollaborationOutcomes.ReconnectResends | public/collaboration.js:1628-1655 | a tab whose connection breaks with something unacknowledged has its whole document on the server once the next connection has synchronized |
| CollaborationOutcomes.FailedApplyReturns | public/collaboration-durability.js:35-60 | an update that was saved and could not be applied comes into the document with the next connection, and must be resent |
| CollaborationOutcomes.FailedSaveLeavesAtRest | public/collaboration-durability.js:35-60 | a mutation whose save fails leaves document, record and server as they were |
| CollaborationOutcomes.CompactionRound | public/collaboration.js:1722-1750 | a snapshot the server refuses leaves the tab as it was; one it keeps leaves the server with the whole document |
| CollaborationOutcomes.ClearDoes | public/collaboration.js:807-874 | cleanup is possible if and only if nothing is counted, prepared or to be resent, and names the exact generations read or saved |
| CollaborationOutcomes.RemovalDoes | public/collaboration-recovery-store.js:315-363 | a removal takes a record if and only if it still is that generation, and the records of other sources stay |
| CollaborationOutcomes.CloseDoes | public/collaboration.js:1628-1655 | a close remembers exactly whether anything may be missing on the server |
| CollaborationDurability.StepKeeps | public/collaboration.js:529-545 | every protocol step keeps the invariant of sessions, records and promises |
| CollaborationDurability.AppliesKeepsTab | public/collaboration-durability.js:35-60 | applying after persisting keeps the promise of the tab that commits |
| CollaborationDurability.RemovesKeepsTab | public/collaboration-recovery-store.js:315-363 | removing a record by its exact generation loses no promise of any tab |
| CollaborationDurability.PageSession.HandleSocketClose | public/collaboration.js:1628-1655 | a close with anything outstanding demands a full resend and resets the counters |
| CollaborationDurability.PageSession.SendDocumentUpdate | public/collaboration.js:1697-1720 | an update is counted exactly when it is queued on a synchronized socket; otherwise a full resend is demanded, and the close is an event of its own |
| CollaborationDurability.PageSession.HandleSyncComplete | public/collaboration.js:1522-1570 | the first synchronization of a blank page makes the bootstrap its document, no other changes the document, and the full state is sent when it bootstraps or must resend |
| CollaborationDurability.PageSession.HandleUpdateAck | public/collaboration.js:1572-1600 | an acknowledgement takes one message off the count |
| CollaborationDurability.PageSession.ApplyPrepared | public/collaboration-durability.js:35-60 | the persisted update becomes live and is sent, in that order |
| CollaborationDurability.PageSession.MaybeClearLocalRecovery | public/collaboration.js:807-874 | cleanup starts only with nothing outstanding and names exact generations |
| DepthFirst.SplicingCommutes | public/collaboration.js:386-418 | depth-first reading of sibling lists in which one node became leaves and its own children is the old reading spliced |
| DepthFirst.RemovalFiltersReading | public/collaboration.js:1020-1031 | removing a set closed under children filters every depth-first reading |
| BlockForest.PromotionKeepsPageOrder | public/collaboration.js:342-419 | replacing a block by a leaf, or dropping it, while promoting its children keeps the page's depth-first order |
| BlockForest.PromotedChildren | public/collaboration.js:386-418 | each new sibling list is the old one with the target replaced by the attachment and its children |
| BlockForest.PromotedIsAcyclic | public/collaboration.js:411-418 | the new page has no cycle |
| BlockForest.NothingIsOrphaned | public/collaboration.js:1085-1131 | exactly the target leaves and the attachment comes, bodies stay, and no parent is lost |
| BlockForest.PromotionIsInPlace | public/collaboration.js:386-418 | in the page's reading what stands before and after the target stays, and the attachment, if any, takes its place |
| BlockForest.SiblingOrdersAreDense | public/collaboration.js:411-418 | the affected siblings are numbered 0, 1, 2, ... |
| BlockDeletion.CollectSubtree | public/collaboration.js:272-285 | the sweep collects exactly the blocks whose parent chain reaches the target, cyclic pages included |
| BlockDeletion.SubtreeIsClosed | public/collaboration.js:272-285 | what is collected has the target and every block whose parent it has |
| BlockDeletion.CascadeKeepsPageOrder | public/collaboration.js:1020-1062 | a cascading deletion removes its subtree from the page order and moves nothing else |
| BlockDeletion.ReplacementKeepsPageOrder | public/collaboration.js:360-383 | an attachment already broadcast elsewhere is taken out of the order before it replaces the target |
| BlockDeletion.FlattenBlocks | public/collaboration.js:191-204 | the explicit stack yields the recursive depth-first order |
| InsertionPlan.IndexBlocks | public/block-insertion-result.js:45-60 | an index exists if and only if every block is valid and no id repeats, and it holds exactly the blocks |
| InsertionPlan.WalkDepths | public/block-insertion-result.js:107-125 | in any iteration order the memoised walk accepts exactly the sets whose every parent chain reaches a root within 129 blocks |
| InsertionPlan.Climb | public/block-insertion-result.js:112-120 | the climb gives up only on a chain that misses a parent, repeats a block or is too long |
| InsertionPlan.Descend | public/block-insertion-result.js:121-125 | the depths handed out are exact, and giving up means some chain is too long |
| InsertionPlan.GivenUpIsNotRooted | public/block-insertion-result.js:115-120 | each of the three reasons to stop really excludes a short chain to a root |
| InsertionPlan.SortedAscends | public/block-insertion-result.js:97-99 | sorting siblings orders them strictly and keeps them all |
| InsertionPlan.BuiltForestIsFaithful | public/block-insertion-result.js:126-139 | in the forest every block stands once, under its own parent, among sorted siblings |
| InsertionPlan.Plan | public/block-insertion-result.js:8-139 | a plan exists if and only if all checks hold; it is a faithful forest whose children of the target parent are exactly the ordered ids |
| InsertionOutcomes.AcceptsExactly | public/block-insertion-result.js:8-139 | a plan is made if and only if the editor's page is as it was before the request, the answers confirm this one insertion and no other change, and the confirmed page is whole, at most 129 deep and has the siblings in the order asked |
| InsertionOutcomes.PlacedIsPlanned | public/block-insertion-result.js:61-139 | when the server adds the block and places it and its siblings in any order asked, with a new version for each, the plan is made |
| InsertionOutcomes.AddedIsPlanned | public/block-insertion-result.js:61-139 | and so it is when the block is only added and the order asked is the one in which its siblings then stand |
| InsertionOutcomes.MeasurableExactly | public/block-insertion-result.js:107-125 | the depths exist if and only if every block has a chain of at most 129 blocks of the page up to a root |
| InsertionOutcomes.UnmovedExactly | public/block-insertion-result.js:61-76 | the two indexes agree if and only if the same blocks stand in the same places |
| TreeRepair.ParentWouldCycle | public/treeview-block.js:40-56 | the cached walk says cycle exactly when the chain never ends, and the cache stays true |
| TreeRepair.WouldCycleUncached | public/treeview-block.js:44-52 | the plain walk says cycle exactly when the chain never ends |
| TreeRepair.Repair | public/treeview-block.js:93-109 | the cached repair computes the input-order repair |
| TreeRepair.RepairUncached | public/treeview-block.js:93-109 | the repair without the cache computes the same links |
| TreeRepair.RepairedIsRooted | public/treeview-block.js:93-109 | afterwards every node has a chain to a root |
| TreeRepair.RepairedIsGentle | public/treeview-block.js:93-109 | only links of chains that never ended are cut, and an acyclic outline is unchanged |
| TreeRepair.CutExactly | public/treeview-block.js:93-109 | a link is cut if and only if its chain never ended and meets no node that comes earlier in the input, so a branch that leads to a cycle keeps its own link once the cycle is cut |
| TreeRepair.RootedExactly | public/treeview-block.js:93-109 | once some nodes are repaired, a chain ends if and only if it ended before or meets one of them |
| OutlineEdits.NormalizationIsIdempotent | public/treeview-block.js:89-109 | repairing links twice changes nothing more |
| OutlineEdits.SanitizedExactly | public/treeview-block.js:73-92 | a parent link is kept before the repair if and only if it names another node of the outline |
| OutlineEdits.NormalizedKeepsEndingChains | public/treeview-block.js:89-109 | a node whose chain ends keeps its parent |
| OutlineEdits.PreviousSiblingIsNearest | public/treeview-block.js:490-528 | the previous sibling is the nearest node before it with the same parent |
| OutlineEdits.RelinkKeepsRooted | public/treeview-block.js:527-541 | hanging a node under a chain that avoids it keeps every node rooted |
| OutlineEdits.DeleteKeepsAncestors | public/treeview-block.js:543-547 | deleting a node changes no ancestor relation between the others |
| OutlineEdits.DeleteKeepsRooted | public/treeview-block.js:543-547 | deleting a node leaves every other node rooted |
| OutlineEdits.Outline.constructor | public/treeview-block.js:89-109 | a normalized outline is sound |
| OutlineEdits.Outline.Indent | public/treeview-block.js:527-533 | indent hangs a node under its previous sibling, if any, and keeps the outline sound |
| OutlineEdits.Outline.Outdent | public/treeview-block.js:535-540 | outdent moves a node beside its parent and keeps the outline sound |
| OutlineEdits.Outline.Delete | public/treeview-block.js:542-547 | delete moves the children up, removes one node and keeps the outline sound |
| SaveQueueProofs.OneOutstandingCall | public/save-queue.js:14-75 | at most one writer call is outstanding, and it is the newest |
| SaveQueueProofs.OutstandingCallHoldsTheQueue | public/save-queue.js:143-159 | waiting for the run a discard found in place waits out every older call |
| SaveQueueProofs.TasksStartInOrder | public/save-queue.js:19-34 | calls start in enqueue order; only a call of unknown outcome is repeated |
| SaveQueueProofs.IdleQueueHasWrittenLatest | public/save-queue.js:19-66 | an idle queue without definitive rejection since the last discard wrote the newest entry last |
| SaveQueueOutcomes.RestingQueueHasWritten | public/save-queue.js:14-165 | in every run without a discard and without a rejection event whose retryable is false, a queue with empty slots and no run has written its newest entry last, and that is its result |
| SaveQueueOutcomes.FlushFinishes | public/save-queue.js:128-142 | from every reachable state at rest with an entry waiting, one flush calls the writer with what is to be tried again, if anything, and then with that entry, and once they resolve it is the queue's result |
| SaveQueueOutcomes.RetryableRejectionDoes | public/save-queue.js:44-48 | a current call that rejects with an unknown outcome leaves exactly its entry in the retry slot and the pending slot as it was |
| SaveQueueOutcomes.DefinitiveRejectionDoes | public/save-queue.js:50-65 | a current call that rejects definitively leaves nothing to retry: its run goes on with the newer entry if and only if one waits and may supersede, and otherwise both slots are empty |
| SaveQueueOutcomes.StaleRejectionDoes | public/save-queue.js:41-42 | the failure of a discarded call touches no slot |
| SaveQueueOutcomes.ResolutionDoes | public/save-queue.js:36-40 | a success of the current generation is the queue's result, and the run goes on with what waits or resolves with it |
| SaveQueueOutcomes.EnqueueDoes | public/save-queue.js:122-127 | an edit takes the place of the one that waits; an idle queue starts at once, with a task to be tried again before it |
| SaveQueueOutcomes.FlushDoes | public/save-queue.js:128-142 | a flush ends with the queue's result where no work is, and otherwise waits for the run, which it starts if nobody has |
| SaveQueueOutcomes.JoinedLearns | public/save-queue.js:85-86 | whoever joined a run learns its failure or its value |
| SaveQueueOutcomes.BehindLearns | public/save-queue.js:91-96 | whoever waits behind an older run looks again when that has settled: a run serves it, but after a discard none does |
| SaveQueueProofs.NoDiscardedTaskStarts | public/save-queue.js:143-152 | no step starts work enqueued before the last discard |
| SaveQueueProofs.ResultsStayInTheirGeneration | public/save-queue.js:15-40 | no result of a discarded generation becomes the last result or answers a later caller |
| SaveQueueProofs.FulfilledEditIsWritten | public/save-queue.js:122-127 | a fulfilled edit was written, or a newer one in its place, unless something was discarded or refused |
| SaveQueueProofs.NextKeeps | public/save-queue.js:14-165 | every step keeps the queue's invariant |
| LatestWriteQueue.Queue.Drain | public/save-queue.js:19-34 | one turn of the drain loop, retry slot first |
| LatestWriteQueue.Queue.EnsureRunning | public/save-queue.js:77-118 | a caller joins the run of its generation, waits behind an older one, or starts a run |
| LatestWriteQueue.Queue.Enqueue | public/save-queue.js:122-127 | only the newest unstarted entry is kept |
| LatestWriteQueue.Queue.FlushTurn | public/save-queue.js:128-142 | a flush repeats while its generation has work |
| LatestWriteQueue.Queue.Discard | public/save-queue.js:143-159 | a discard opens a generation and empties both slots and the last result |
| LatestWriteQueue.Queue.WriterRejects | public/save-queue.js:41-65 | the failure of a call is the rejection event of the queue: kept to be retried, superseded or surfaced as its arguments say |
| WriterLocks.NoDeadlock | public/page-transition-lock.js:252-288 | in every reachable state with an unsettled call some call can step, for any ids and any mix of shared and exclusive |
| WriterLocks.EveryCallCanFinish | public/page-transition-lock.js:252-288 | from every reachable state all calls can finish without aborting any |
| WriterLocks.ExclusiveActionsAreAlone | public/page-transition-lock.js:290-296 | two calls inside their actions with a common id are both shared |
| WriterLocks.SortedIds | public/page-transition-lock.js:269 | ids are taken without repeats in ascending order |
| WriterLocks.ProgressCounts | public/page-transition-lock.js:270-286 | every step brings all calls together closer to their end |
| WriterLockOutcomes.FirstComeFirstServed | public/page-transition-lock.js:270-286 | over every run, until the one that waits in front for a name is granted it, or one of the two is aborted, it stays in front of whoever waits behind |
| WriterLockOutcomes.GrantableExactly | public/page-transition-lock.js:270-286 | the first in a queue is granted its name if and only if nobody who holds it conflicts, and shared holders only conflict with an exclusive one |
| WriterLockOutcomes.AskDoes | public/page-transition-lock.js:271-284 | a call asks for the first of its ids that it does not hold, behind all who wait for it, and acts once it holds them all |
| WriterLockOutcomes.ReturnDoes | public/page-transition-lock.js:271-286 | after its action, or aborted while it waited, a call gives its names back, the last one first |
| LeaseFence.FenceHolds | public/page-transition-lock.js:110-137 | while a tab is inside a lock and its lease names that lock, no sequence of other tabs' steps changes the lease, whatever the clock says |
| LeaseFence.RenewalKeepsFence | public/page-transition-lock.js:177-187 | the owner's renewal keeps the fence |
| LeaseFence.ForeignRemovalNeedsItsLock | public/page-transition-lock.js:194-207 | a step without the lease's token changes it exactly by releasing it expired under its own lock |
| LeaseOutcomes.LeaseLastsUntilReleased | public/page-transition-lock.js:110-192 | a tab that takes a lease inside its lock still has it, unchanged, after any steps of any other tabs, and its release leaves the page free |
| LeaseOutcomes.ExpiredLeaseChangesHands | public/page-transition-lock.js:194-207 | the lease of a tab that is gone can, once it has expired, be removed by another inside the lock it names, which then takes its own |
| LeaseOutcomes.AcquireDoes | public/page-transition-lock.js:110-137 | a lease is taken if and only if none is stored and the tab is inside the lock it names |
| LeaseOutcomes.RenewDoes | public/page-transition-lock.js:177-187 | a renewal succeeds if and only if the store still has this tab's lease and the tab is inside its lock, expired or not |
| LeaseOutcomes.RemovalDoes | public/page-transition-lock.js:46-57 | a removal takes the stored lease whose token it has, or an expired one inside the lock that fences it, and no other |
| LeaseOutcomes.LeavingUndoesEntering | public/page-transition-lock.js:236-244 | leaving a lock takes back exactly one entering, other locks untouched |
| LeaseFence.PageTransitionLock.Acquire | public/page-transition-lock.js:110-137 | a lease appears only where there was none, under a held lock |
| LeaseFence.PageTransitionLock.Renew | public/page-transition-lock.js:177-187 | a renewal needs the token and the lock and changes only the expiry |
| LeaseFence.PageTransitionLock.RemoveIfOwned | public/page-transition-lock.js:46-57 | a removal needs the token |
| LeaseFence.PageTransitionLock.ReleaseExpired | public/page-transition-lock.js:194-207 | an expired lease goes only under the lock it names |
| EditorHistoryProofs.HistoryIsAccounted | public/editor-history.js:65-101 | in every reachable state the retained bytes are those of both stacks, each entry's size is its own, and both limits hold |
| EditorHistoryProofs.UndoRedoRestores | public/editor-history.js:183-201 | without discards and oversized changes k undos and k redos restore stacks and baselines, in either order |
| EditorHistoryProofs.HistoryIsChained | public/editor-history.js:123-174 | coalescing, trimming, seeding and committing keep the chain of changes |
| EditorHistoryProofs.ChainPerKey | public/editor-history.js:123-174 | each change of a key ends where its next one begins, the newest at the baseline |
| EditorHistoryOutcomes.BurstIsOneUndo | public/editor-history.js:145-166 | however many changes a burst has, the newest entry leads from where its first change began to where its last one ended, so one undo takes the whole burst back |
| EditorHistoryOutcomes.ChangeIsRecorded | public/editor-history.js:123-174 | a change becomes the baseline and ends what could be redone; what is kept to undo is, of the newest entry extended or one entry more, the longest newest part within both limits, and one too large is not kept |
| EditorHistoryOutcomes.UnchangedIsNotRecorded | public/editor-history.js:126-135 | a key without a baseline only gets one, and a value that is the baseline changes nothing |
| EditorHistoryOutcomes.CommitDoes | public/editor-history.js:183-201 | undo moves the newest entry to the other stack and its key back to where the entry began; redo is its mirror |
| EditorHistoryOutcomes.DiscardDoes | public/editor-history.js:203-212 | a discard drops the newest entry with its bytes and forgets the baseline of its key alone |
| EditorHistoryProofs.TrimmedIsMinimal | public/editor-history.js:70-76 | trimming removes no entry that the limits would have allowed |
| EditorHistoryProofs.OversizedBreaksChain | public/editor-history.js:141-144 | an oversized change breaks the chain if and only if its key has something to undo |
| EditorHistoryProofs.DiscardBreaksChain | public/editor-history.js:203-212 | a discard from either stack breaks the chain if and only if its key occurs in another entry |
| EditorHistoryProofs.OversizedLosesBaseline | public/editor-history.js:141-144 | a concrete run in which undo and redo around an oversized change do not bring back what was typed |
| EditorHistoryProofs.DiscardForgetsBaseline | public/editor-history.js:203-212 | a concrete run in which undo and redo after a discard bring back a baseline that was forgotten |
| EditorHistory.History.constructor | public/editor-history.js:34-48 | the limits are at least one entry and 1024 bytes |
| EditorHistory.History.Record | public/editor-history.js:123-174 | a change is recorded if and only if it differs and fits |
| EditorHistory.History.TrimUndo | public/editor-history.js:70-76 | the oldest entries go until both limits hold |
| EditorHistory.History.Commit | public/editor-history.js:183-201 | one entry changes stacks and its key's baseline follows |
| EditorHistory.History.Discard | public/editor-history.js:203-212 | one entry and its key's baseline go |
| DuplicateKeys.HasDuplicateJsonObjectKeys | public/draft-store.js:70-178 | true exactly when some object of a JSON text has two members with equal decoded names |
| DuplicateKeys.Scanner.ScanValue | public/draft-store.js:116-126 | exact for one value, and otherwise the cursor ends just past it |
| DuplicateKeys.Scanner.ScanObject | public/draft-store.js:128-155 | exact for one object |
| DuplicateKeys.Scanner.ScanArray | public/draft-store.js:157-176 | exact for one array |
| DuplicateKeys.Scanner.ScanString | public/draft-store.js:84-99 | moves past a string with all its escapes and decodes it |
| JsonScanner.UnitsEnd | public/draft-store.js:87-97 | escaped quotes do not end a string |
| JsonScanner.StringIsDecoded | public/draft-store.js:93 | reading a printed string gives its decoded name |
| JsonScanner.DuplicateFromMeans | public/draft-store.js:135-147 | the growing set of names finds exactly the repeated ones |
| HighlightedHtml.EscapedShows | public/code-highlighting.js:104-111 | five replacements one after the other escape each character once, and a browser shows the text in the style it stands under |
| HighlightedHtml.WrappedShows | public/code-highlighting.js:113-115 | a wrapped token shows its text in the style of its scope, and what follows it has none |
| HighlightedHtml.RenderedShows | public/code-highlighting.js:161-165 | read as HTML the rendered tokens show the source up to the end of the last one, each token in its style |
| HighlightedHtml.ScopesDiffer | public/code-highlighting.js:113-115 | no two scopes are shown in the same style |
| LuaHighlight.HighlightLuaSource | public/code-highlighting.js:153-224 | within the cap the output, read as HTML, shows exactly the source's characters, each in the style of the token that covers it or in none; the tokens are exactly the styled lexemes, in order and apart |
| LuaTokens.TokensAreThese | public/code-highlighting.js:168-221 | a list of tokens is the highlighter's if and only if they are in order, each fits, none starts inside a plain name, and nothing that is left plain starts a comment, string, number or known word: every source has exactly one such list |
| LuaTokens.FittingIsLexed | public/code-highlighting.js:168-221 | a token that fits at a place is the one the lexer makes there, with the same end |
| LuaHighlight.TokensFit | public/code-highlighting.js:169-218 | each token is what its scope says and ends where it must: at the line end, the first closing bracket of its level, the first quote after an even run of backslashes, or the longest match of a number; names are whole |
| LuaHighlight.Lex | public/code-highlighting.js:168-221 | the cursor strictly advances and stays inside the source |
| LuaHighlight.FindLongBracketEnd | public/code-highlighting.js:117-126 | an end is found exactly where a long bracket opens: just past the first closing bracket of the same level, or the end of the source |
| LuaHighlight.IndexOf | public/code-highlighting.js:124 | the closing bracket found is the first one |
| LuaHighlight.FindQuotedEnd | public/code-highlighting.js:128-140 | the end is just past the first matching quote that an even run of backslashes precedes, or the end of the source |
| LuaHighlight.QuotedEndIsUnique | public/code-highlighting.js:128-140 | that characterisation has one end only |
| LuaHighlight.NumberIsLongest | public/code-highlighting.js:142-151 | a number is the longest match of the hexadecimal pattern, or of the decimal one where the first has none |
| LuaHighlight.NoLengthNoNumber | public/code-highlighting.js:142-151 | no number is found only where neither pattern matches |
| StorageSnapshot.InspectStorageKeys | public/storage-snapshot.js:19-76 | every persistent key is returned under removals and appends, and only keys that were stored; the result is reliable only if as many passes in a row as wanted were complete and agreed; on unchanged storage the keys are exact, and reliable exactly when they are distinct, non-empty and the passes suffice |
| StorageSnapshot.Pass | public/storage-snapshot.js:33-61 | the accesses of one pass, in order, and when it is complete |
| StorageSnapshot.PassFindsPersisting | public/storage-snapshot.js:33-61 | a pass finds every key that is there throughout it |
| StorageSnapshot.PassOfUnchanged | public/storage-snapshot.js:33-61 | on unchanged storage a pass finds exactly the non-empty keys |
| StorageSnapshot.ScanReverse | public/storage-snapshot.js:45-55 | the scan reads every index once, from the last one down, and collects what it reads |
| StorageSnapshot.ReverseCovers | public/storage-snapshot.js:45-55 | what the reverse scan collects has every key that persists from the reading of the length on |
| StorageSnapshot.SurvivorStaysWithin | public/storage-snapshot.js:45-47 | a surviving key never moves right |
| StorageSnapshot.CompleteMeansDistinct | public/storage-snapshot.js:57-58 | the size test holds if and only if keys are non-empty and distinct |
| DatabaseIds.MakeUniqueId | public/database-block.js:118-129 | the loop ends for every finite set of taken ids and yields a free one, despite the cut |
| DatabaseIds.CandidatesDiffer | public/database-block.js:122-125 | cutting the prefix never makes two candidates equal |
| DatabaseIds.UniqueIdIsShort | public/database-block.js:118-129 | within a block's capacity no id outgrows 64 characters |
| DatabaseOutcomes.TrimTakesTheEnds | public/database-block.js:107-116 | trimming takes the white space at both ends of a text and nothing else |
| DatabaseOutcomes.SafeIdDoes | public/database-block.js:111-116 | an id is trimmed and cut, and gives way to the fallback exactly if it is then empty or unsafe |
| DatabaseOutcomes.UniqueIdDoes | public/database-block.js:118-129 | a free id is kept, and otherwise the first numbered fallback that is free is taken |
| DatabaseOutcomes.CanonicalDoes | public/database-block.js:519-524 | item by item the id asked for is made unique among those before it, with the item's own fallback |
| DatabaseIds.SafeIdTwice | public/database-block.js:111-116 | a second normalization changes an id exactly when the cut ends in whitespace |
| DatabaseIds.NormalizeIds | public/database-block.js:519-524 | canonical ids are distinct |
| DatabaseIds.CanonicalIsIdempotent | public/database-block.js:519-524 | canonical ids are their own canonical ids, whatever the fallbacks |
| DatabaseAliases.FirstClaimWins | public/database-block.js:144-191 | a stored id means the first item that carries it, unless an earlier item was given it |
| DatabaseAliases.CanonicalMeansItself | public/database-block.js:179-191 | in a normalized document every id resolves to itself |
| DatabaseOutcomes.MadeUpIdMeansItsItem | public/database-block.js:150-165 | an item whose id was made up or made unique is meant by that id, unless an earlier item claims it |
| DatabaseOutcomes.MadeUpRequestMeansItsItem | public/database-block.js:157-165 | and by the id that was to stand in for a missing one |
| DatabaseOutcomes.TrimmedReferenceMeans | public/database-block.js:167-177 | a text that no stored and no made-up id claims means the first item that asked for it, once it is trimmed and cut |
| DatabaseOutcomes.UnknownReferenceMeans | public/database-block.js:179-191 | a safe id that nothing knows is left as it is, and what is no safe id means nothing |
| DatabaseCells.CellsReachOneProperty | public/database-block.js:382-404 | in any block no stored cell is claimed by two properties, an added title included, and ids are distinct |
| DatabaseCells.ReadSourcePropertyValue | public/database-block.js:400-403 | the loop reads the first key under which the row holds something |
| DatabaseCells.ClaimedCellSurvives | public/database-block.js:572-588 | a claimed cell stands, normalized, under its property's id, and no other property claims it |
| DatabaseCells.CellIsFixed | public/database-block.js:410-426 | the normal form of a cell is its own normal form, once its options mean themselves |
| DatabaseOutcomes.PropertyIsKept | public/database-block.js:519-549 | every stored property keeps its place, kind and options, but that a second title becomes text |
| DatabaseOutcomes.TitleIsAdded | public/database-block.js:551-561 | a title comes to the front if and only if there is none and there is room for it |
| DatabaseOutcomes.ChosenDo | public/database-block.js:410-424 | of a multiple choice exactly the options that some item means are kept, each once |
| DatabaseOutcomes.ChosenFollow | public/database-block.js:410-424 | and in the order of the items that mean them |
| DatabaseOutcomes.KeysAre | public/database-block.js:382-398 | the keys under which a row may hold a property are those stored, asked for or made canonical that mean it |
| DatabaseOutcomes.RowsDo | public/database-block.js:572-584 | the first 200 rows stay in order, each with the cell of every property made from the first of its keys that the row holds |
| DatabaseAliases.AliasesLeadInto | public/database-block.js:167-177 | every alias leads to the canonical id of some item |
| DatabaseDocument.DocumentIsClosed | public/database-block.js:512-708 | ids are unique, at most one title, every filter, sort, group, hidden and active reference names an existing object of a fitting kind, each filter keeps one value, and each row has a unique id and a cell for every property and no other |
| DatabaseOutcomes.LinkStays | public/database-block.js:602-611 | a filter or sort stays if and only if it names a property |
| DatabaseOutcomes.LinksAreListed | public/database-block.js:602-648 | the first eight of them stay in order, each with the property it names |
| DatabaseOutcomes.HiddenDo | public/database-block.js:664-669 | a property is hidden if and only if some reference means it and it is no title |
| DatabaseOutcomes.ViewsAreKept | public/database-block.js:586-672 | the first twelve views stay, each with what it names |
| DatabaseOutcomes.ViewsStandIn | public/database-block.js:679-695 | without any view a table and a board of the status stand in |
| DatabaseOutcomes.ActiveDoes | public/database-block.js:696-699 | the active view is the one the document names, or the first |
| DatabaseOutcomes.ValueDoes | public/database-block.js:426-433 | a filter text becomes the option it means if its property has options, other texts are cut, flags stay |
| DatabaseDocument.DocumentIsIdempotentExactly | public/database-block.js:512-708 | without whitespace in stored ids, normalizing a normalized document changes nothing, rows, row ids, cells and filter values included, if and only if no filter text is no option and yet trims and cuts to one; only a text beyond the limit leaves such a one |
| DatabaseDocument.ShortFiltersAreIdempotent | public/database-block.js:512-708 | where no stored filter text is beyond the limit, normalizing twice is normalizing once |
| DatabaseDocument.ValueSlipsExactly | public/database-block.js:426-433 | one filter value, normalized under the stored and again under the normalized options, is fixed if and only if it does not slip |
| DatabaseDocument.CutTextSlips | public/database-block.js:426-433 | every text beyond the limit that names no option slips if what the limit leaves of it names one |
| DatabaseDocument.IndentedTextSlips | public/database-block.js:353-358 | a concrete such text |
| DatabaseDocument.StoredOptionsMean | public/database-block.js:179-191 | a text means a stored option exactly when it trims and cuts to it |
| SharedTypes.SharedType.Reconcile | public/collaboration.js:157-167 | afterwards the shared type holds the value, everything compatible is still the same object, and no edit is made if and only if it matched before |
| SharedTypes.SharedType.ReconcileArray | public/collaboration.js:121-140 | the same for an array of any old and new length, nested to any depth |
| SharedTypes.SharedType.ReconcileMap | public/collaboration.js:142-155 | the same for a map: other keys go, and an undefined entry counts as missing |
| SharedTypes.SharedType.PutItem | public/collaboration.js:124-139 | one turn of the array loop changes that place alone |
| SharedTypes.SharedType.PutEntry | public/collaboration.js:147-154 | one turn of the map loop changes that key alone |
| SharedTypes.SharedType.ReplaceText | public/collaboration.js:73-89 | the text becomes the value by one replacement between the widest shared ends, whose characters stay the same items; equal texts are not touched |
| SharedTypes.CreateItem | public/collaboration.js:102-119 | a new shared type holds the value, with null for undefined |
| SharedText.SharedLengths | public/collaboration.js:77-83 | the two loops find shared ends that cannot be made longer |
| SharedText.WidestEndsAreLargest | public/collaboration.js:77-86 | no other prefix and suffix spare more characters, so the replacement is the smallest there is |
| SharedText.CommonStartIsKept | public/collaboration.js:73-89 | whatever start old and new text share is still made of the same characters, not of new ones |
| SharedText.CommonEndIsKept | public/collaboration.js:73-89 | and so is the end they share behind the longest such start |
| SharedText.TypedIsNew | public/collaboration.js:86-88 | each character typed in between is a new item, with a stamp of its own from the clock on |
| SharedShapes.HeldValueIsRead | public/collaboration.js:171-189 | reading gives back the value that was written, undefined as null, and refuses exactly the unsafe keys |
| SharedShapes.ReadValueMatches | public/collaboration.js:157-189 | writing back what was read makes no edit, exactly when nothing undefined is stored |
| SharedShapes.HeldValueMatches | public/collaboration.js:157-167 | writing a value without undefined twice makes no second edit |
| SharedShapes.UndefinedIsWrittenAgain | public/collaboration.js:118-166 | over what was stored, writing a value again makes no edit if and only if nothing in it is undefined |
| SharedShapes.KeptAlongPath | public/collaboration.js:95-167 | a path along which old and new kinds agree leads to the same object before and after |
| SharedShapes.TextKeptAlongPath | public/collaboration.js:73-167 | and where it leads to a text, the start that old and new text share is made of the same characters |
| SharedShapes.ReadingIsRefusedExactly | public/collaboration.js:171-189 | reading is refused if and only if some map in the shape has an unsafe key |
| PageDraftProofs.DraftsAreKeptOrSuperseded | public/draft-store.js:704-772 | in any run of any number of tabs with stale copies, in which the owner writes only while its copy covers the durable record and no guest's save settles under a queued write, a draft that was ever durable is still durable or was superseded |
| PageDraftProofs.DraftsAreLostExactly | public/draft-store.js:747-767 | in every reachable state an event loses a draft if and only if it settles the owner's plain write over a part that is neither written nor superseded |
| PageDraftProofs.WriteLosesWhatCopyMisses | public/draft-store.js:704-772 | a write of the owner loses exactly the durable parts its copy does not show, superseded and newly written ones excepted |
| PageDraftProofs.GuestSaveInBetweenIsLost | public/draft-store.js:747-767 | a guest's save that settles under a queued write is lost, but for what the write holds itself |
| PageDraftProofs.SupersededPartsWereSeen | public/draft-store.js:903-1111 | a draft is superseded only by a call that saw that very draft and may end it |
| PageDraftProofs.TakesOutExactly | public/draft-store.js:903-1075 | an acknowledgement or removal takes out exactly the drafts its arguments name, newer revisions excepted |
| PageDrafts.OnlySavesBringPartsIn | public/draft-store.js:903-1133 | an acknowledgement or removal brings no draft in |
| PageDraftOutcomes.CallAnswers | public/draft-store.js:704-1133 | every call, told by its arguments: a save that answers true makes the part it names exactly the value, revision, time and version given, an acknowledgement takes out the part or moves its version on, a removal takes out what it names; all other parts of the record read stay, and the owner's copy, or the next of a guest's comparison, is that record |
| PageDraftOutcomes.SaveBecomesDurable | public/draft-store.js:747-901 | over any run in which the tab stays open: once the transactions before it have ended and it settles on a record it expects, the durable record holds the part saved |
| PageDraftOutcomes.DiscardBecomesDurable | public/draft-store.js:1098-1111 | a durable discard takes the record it was given away once its turn has come, and no other record |
| PageDraftOutcomes.NewerEditSurvivesAcknowledgement | public/draft-store.js:921-939 | a block typed again after the save that is acknowledged keeps its newer draft, which then expects the version after the saved one |
| PageDraftOutcomes.RunQueues | public/draft-store.js:747-767 | a tab's transactions end in the order in which they were queued, whatever the run |
| PageDraftProofs.RemovesOnlyUnchanged | public/draft-store.js:963-1028 | a comparing removal takes out the draft exactly when value, version and revision are as expected |
| PageDraftProofs.UnreadableRecordIsKept | public/draft-store.js:707-716 | a present record that cannot be decoded is never replaced or removed |
| PageDraftProofs.GuestSaveCanBeLost | public/draft-store.js:747-767 | a concrete run in which the owner overwrites a draft no call has seen |
| PageDraftProofs.StepKeeps | public/draft-store.js:704-772 | every event keeps each queued comparison such that, if it succeeds, it takes away only superseded drafts, and keeps guests from plain writes |
| PageDraftStores.PageDraftStore.PrepareRecordMutation | public/draft-store.js:787-807 | an unreadable copy is not writable, an absent one has no expected record |
| PageDraftStores.PageDraftStore.WritePage | public/draft-store.js:704-772 | nothing is written unless the copy is the expected record; a guest compares, the owner puts or removes |
| PageDraftStores.PageDraftStore.SaveTitle | public/draft-store.js:809-828 | the title draft becomes the value, revision, time and version given, and nothing else changes |
| PageDraftStores.PageDraftStore.SaveBlock | public/draft-store.js:830-871 | the block's draft becomes the value, revision, time and version given, drafted before or not, and nothing else changes |
| PageDraftStores.PageDraftStore.SaveBlockOrder | public/draft-store.js:873-901 | the order draft becomes what is given, and nothing else changes |
| PageDraftStores.PageDraftStore.AcknowledgeTitle | public/draft-store.js:903-919 | a title draft up to the revision goes, a newer one expects the next version |
| PageDraftStores.PageDraftStore.AcknowledgeBlock | public/draft-store.js:921-939 | the same for one block |
| PageDraftStores.PageDraftStore.AcknowledgeBlockOrder | public/draft-store.js:941-961 | the order draft goes only for its own mutation |
| PageDraftStores.PageDraftStore.RemoveTitleIfUnchanged | public/draft-store.js:963-989 | the title draft goes only if it is the one given |
| PageDraftStores.PageDraftStore.RemoveBlockIfUnchanged | public/draft-store.js:991-1028 | the block draft goes only if it is the one given |
| PageDraftStores.PageDraftStore.RemoveBlock | public/draft-store.js:1039-1047 | the block draft goes, and with it an order that names the block |
| PageDraftStores.PageDraftStore.RemovePageIfUnchanged | public/draft-store.js:1077-1095 | the page's drafts go only if the record is the one given |
| PageDraftStores.PageDraftStore.ClearBlocks | public/draft-store.js:1121-1133 | the blocks' drafts go, and with them an order that names one of them |

## Left out

- A tab's own `clear()` is not an event of its recovery mirror, a peer's is: a failed clear can restore a token while its later sequence check refuses the mirror entry (public/indexeddb-recovery-storage.js:1182-1199). The receipt properties do include it.
- Recovery values are strings; binary values, write-error and change listeners, publishing changes and the read-only storage object are not modelled; a peer's message may come at any time or never.
- RecoveryConvergence.Converges: says nothing of keys that were put behind and not brought back since, because for them it is false.
- RecoveryPeers.TabsConverge: a peer's notification is an event of its own, and that it comes at all is not promised.
- SaveQueueProofs.NextKeeps: safety only; a flush need not end, because a superseded flush may poll a still running older generation.
- The non-throwing barrier promise of the queue's `discard` appears only as the run it waits for.
- LeaseFence.PageTransitionLock.Acquire: reading and writing storage is one step, because two tabs acting between them under different locks are outside the claim.
- BlockForest.PromotionKeepsPageOrder: the replacement is a leaf, as attachments are.
- Snapshot comparisons before a replacement or deletion (`matches*`), block normalization, and the choice of an error or a silent return.
- DuplicateKeys.HasDuplicateJsonObjectKeys: no bound on the nesting; a stack overflow of the recursive scanner, which the caller treats as unreadable, is not modelled.
- LuaHighlight.HighlightLuaSource: text is a sequence of characters, not of UTF-16 code units; the two regular expressions for numbers are functions that read what they match.
- EditorHistory.History.Record: values are known by their serialization, so two values with the same text are one value.
- Names, colours and titles of database blocks, filter operators, sort directions, and the filtering, sorting and searching of their views.
- Outline nodes beyond their ids and parent links; the visible-node walk and the move-up and move-down edits, which only reorder the list.
- PageDrafts.Changed: arguments arrive validated but for empty ids, versions and revisions; payloads and order items are opaque text, and two records that differ only in the insertion order of their blocks are one record.
- PageDraftStores.PageDraftStore.WritePage: one key of the store, one reading of the clock for each call, and a storage that has both comparing operations; enumerating a page's or a user's keys is the storage snapshot's matter.
- SharedTypes.SharedType.ReplaceText: characters are indivisible; Yjs splits a surrogate pair when an edit falls inside it.
- SharedTypes.SharedType.Reconcile: the document as one peer sees it; merging with a concurrent edit is Yjs's.
- Yjs, IndexedDB, BroadcastChannel, WebSocket and Web Locks themselves, and everything under `src/`.
- User interface, routing, authentication, file handling and the server's SQL.
