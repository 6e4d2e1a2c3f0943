# Protocol and parser proofs

A Dafny model of the parts of this repository that carry state, interleaving or crash behaviour,
with proofs of what they keep. `dafny verify dfyconfig.toml` covers the whole project.

Code that changes things step by step is modelled by classes and methods with the source's own
statements, each proved against a specification function; the functions are then the subject of
lemmas over every input, every interleaving or every run. A crash is a cut: only what was durable
before it survives.

| module | what it models |
|---|---|
| `BrokerQueue` | the fair admission queue of the broker, one critical section a step, with cancellation that races a grant |
| `BrokerDrain` | close the door, join every admitted request, close the request table and report it |
| `OperatorVault` | the vault's compare-and-swap on a revision, with several writers that may die between any two file operations |
| `SiteRecord`, `SiteLifecycle`, `ArchiveLineage` | the durable site record: what its processes may do to it, the commands that do it, and the archive ledger it carries |
| `ArchiveInventory`, `ArchiveRemoval` | what a proof and a ledger must say together, and the two-phase removal of archived files |
| `Utf8`, `SseParser`, `ToolCalls` | the streaming provider: incremental decoding, event parsing, and all-or-nothing assembly of tool calls |
| `AgentHistory`, `AgentHarness` | the bounded agent loop: its history, eviction of turns, reviews, call and cost bounds |
| `EventCapture` | delivery of research events through a bounded channel to a retrying worker |
| `StacLinks`, `StacSearch`, `StacHref` | catalogue search with cursors, the text of its links, and a client that follows that text |
| `CommandLexer` | the command lexer against the quoter |
| `Results`, `Cardinality`, `Keyed` | optional values and results; sizes of finite sets; dictionaries by key |

How outside things appear: digests and serializations are invertible (constructors or functions
with an inverse), networks and disks are scripts of outcomes, a clock is a parameter, and each
lock-protected section is one step.

## Where the code does less than it promises

Each of these is kept as the code has it, with a counterexample and the exact condition.

- `expected_files` compares a key with flattened names when it looks for repeats, so that test never
  fires. An inventory that lists one deleted object twice and another never is accepted
  (`ArchiveInventory.RepeatedDeletionAccepted`); acceptance means a bijection exactly when no entry
  marked deleted repeats a key (`ArchiveInventory.BijectionExactly`).
- `_replace_maintenance` refuses while an earlier temporary file exists. A crash between writing and
  renaming it blocks every later maintenance, expiry and recovery
  (`ArchiveRemoval.LeftoverBlocks`, `ArchiveRemoval.LeftoverReachable`); recovery completes exactly
  when no such file was left (`ArchiveRemoval.RecoveryExactly`).
- A vault writer that dies between creating and filling the retained file of a revision blocks every
  later seal (`OperatorVault.UnfinishedBackupBlocks`, `OperatorVault.UnfinishedBackupReachable`,
  `OperatorVault.SealsExactly`).
- The event parser strips a carriage return only from the piece it is reading. Chunks that separate
  a CR from its LF change the lines (`SseParser.LinesAgreeExactly`) and can change an event
  (`SseParser.SplitChangesTheEvent`).
- Next links are written without escaping but read with unescaping: the parameters survive exactly
  when none has a percent sign, plus sign or ampersand (`StacLinks.LinkCarriesExactly`). Without an
  ampersand the request that follows such a link is refused, with 400 when a value can no longer be
  read and with 409 otherwise (`StacHref.EscapedLinkRefused`); with one, the query that is read is
  never the one that was written (`StacHref.SeparatorIsLost`). A datetime with a positive offset has
  a plus sign.
- Expiring an interrupted agent turn leaves the history paired exactly when no review was
  outstanding (`AgentHarness.ExpiryExactly`). Otherwise one call is never answered: whatever paired
  messages follow, the history stays unpaired, and evicting turns repairs it exactly from the first
  user message behind that call on (`AgentHarness.ExpiryLasts`, `AgentHarness.ExpiryExample`). A
  cancellation inside a batch has the same effect exactly when it came before the last call or left
  a review unanswered (`AgentHarness.Harness.RunBatch`).

## Model

| member | source | states |
|---|---|---|
| BrokerQueue.ReachableSafe | web_demo/internal/broker/queue.go:26-81 | in every state reachable by any interleaving of arrivals, claims, cancellations and releases: at most 3 accounts active, exactly those with one unfinished grant; waiters ungranted, distinct, at most 64 and 2 per account; work conserving |
| BrokerQueue.RunKeeps | web_demo/internal/broker/queue.go:26-81 | the same invariant is kept from any state that has it over any run |
| BrokerQueue.StepKeeps | web_demo/internal/broker/queue.go:45-81 | every critical section of Acquire and release keeps it, also a cancellation that finds itself already granted |
| BrokerQueue.ScheduleIsPass | web_demo/internal/broker/queue.go:26-44 | a scheduling pass overtakes no eligible waiter, hands out one slot per account, and stops only when 3 are active or every waiting account is |
| BrokerQueue.ScheduleConserves | web_demo/internal/broker/queue.go:26-44 | it moves waiters to the grants and loses none |
| BrokerQueue.OverIsIdle | web_demo/internal/broker/queue.go:62-80 | once a caller is over, releasing or cancelling it again changes nothing in any later state |
| BrokerQueue.FairStep | web_demo/internal/broker/queue.go:26-44 | a waiter is overtaken only while its account holds a slot, and never by its own account |
| BrokerQueue.BoundedWait | web_demo/internal/broker/queue.go:26-81 | over any run the grants to earlier arrivals are at most the places by which a waiter moved up |
| BrokerQueue.BoundedGrants | web_demo/internal/broker/queue.go:26-81 | hence at most its initial index many non-overtaking grants precede any waiter |
| BrokerQueue.RefusalMeansBusy | web_demo/internal/broker/queue.go:46-56 | the 64-entry rejection happens only with all three slots busy |
| BrokerQueue.WaitersFitAccounts | web_demo/internal/broker/queue.go:46-56 | with the per-account cap, waiters number at most twice their accounts |
| BrokerQueue.Queue.RunSchedule | web_demo/internal/broker/queue.go:26-44 | the loop over objects in place computes the specified pass and sets exactly the granted flags |
| BrokerQueue.Queue.FindEligible | web_demo/internal/broker/queue.go:28-34 | the search loop finds the oldest waiter whose account holds no slot |
| BrokerQueue.Queue.Enter | web_demo/internal/broker/queue.go:45-60 | the first critical section: refusal, or one more entry and a pass |
| BrokerQueue.Queue.CountQueued | web_demo/internal/broker/queue.go:47-52 | the counting loop counts the account's entries |
| BrokerQueue.Queue.Abandon | web_demo/internal/broker/queue.go:62-76 | the second critical section frees the slot of a granted waiter, else withdraws its own entry, then schedules |
| BrokerQueue.Lease.ReleaseSlot | web_demo/internal/broker/queue.go:77-80 | the first call frees the slot and schedules, a later call does nothing |
| BrokerQueue.Queue.State | web_demo/internal/broker/queue.go:82-86 | the two counts |
| BrokerDrain.RunKeeps | web_demo/internal/broker/drain.go:16-78 | over every interleaving: the counter counts those inside and covers the pending map, the exposure stays within the allocation, and every receipt is what its transaction committed |
| BrokerDrain.PendingFitsCounter | web_demo/internal/broker/drain.go:22-31 | outstanding requests are at least the pending ones |
| BrokerDrain.DoorStaysShut | web_demo/internal/broker/drain.go:19-21 | once draining is set nobody is admitted, the counter only falls, and a pause stays |
| BrokerDrain.CommitsAfterAllLeft | web_demo/internal/broker/drain.go:60-73 | from the join to the receipt nobody is inside |
| BrokerDrain.ReceiptsAreTrue | web_demo/internal/budget/drain.go:42-79 | a receipt's counts equal the table at commit, nothing is reserved or dispatched, and a drain's receipt says paused |
| BrokerDrain.ClosingConserves | web_demo/internal/budget/drain.go:54-56 | closing the table loses no row and no money: open reservations become unknown ones |
| BrokerDrain.PauseIsDurable | web_demo/internal/budget/drain.go:24-28 | a pause is never undone by any later step |
| BrokerDrain.ShutdownKeepsAdmission | web_demo/internal/budget/drain.go:36-40 | an ordinary shutdown never changes the admission state |
| BrokerDrain.ReserveKeeps | web_demo/internal/budget/run.go:107-117 | a reservation never takes the exposure over the allocation |
| BrokerDrain.UpdateKeeps | web_demo/internal/budget/run.go:144-197 | nor does dispatching, settling or losing a request |
| BrokerDrain.Server.AdmitRequest | web_demo/internal/broker/drain.go:16-32 | admission under the lock: refused when draining, else a fresh number, pending and counted |
| BrokerDrain.Server.UnlinkRequest | web_demo/internal/broker/drain.go:26-29 | the critical section of finished |
| BrokerDrain.Server.LeaveServer | web_demo/internal/broker/drain.go:30 | the decrement that follows it |
| BrokerDrain.Server.CloseDoor | web_demo/internal/broker/drain.go:49-54 | closes the door and cancels everybody inside |
| BrokerDrain.Server.CancelAll | web_demo/internal/broker/drain.go:51-53 | the loop cancels exactly the pending requests |
| BrokerDrain.Server.PauseRun | web_demo/internal/broker/drain.go:55-59 | the durable pause, or a failed drain |
| BrokerDrain.Server.AwaitHandlers | web_demo/internal/broker/drain.go:60-66 | joins only when nobody is outstanding; a timeout is a failed stop |
| BrokerDrain.Server.CommitTable | web_demo/internal/budget/drain.go:44-59 | the transaction pauses if asked and closes the table |
| BrokerDrain.Server.ReportTable | web_demo/internal/budget/drain.go:67-78 | the receipt holds the sums and counts of the table |
| BrokerDrain.Server.Checkpoint | web_demo/internal/budget/drain.go:42-79 | a receipt exactly when every part succeeds; without the commit nothing changes, and without a pause the admission state stays |
| OperatorVault.RunKeeps | infra/demo/scripts/operator_vault.py:82-127 | over every interleaving of writers and deaths: one holder of the lock, a whole destination, revisions rising by one, earlier ones kept, and all of it only extended |
| OperatorVault.HistoryIsKept | infra/demo/scripts/operator_vault.py:106-122 | from an empty directory the destination is always a whole revision and every earlier revision's file holds exactly its bytes |
| OperatorVault.OneWinner | infra/demo/scripts/operator_vault.py:95-99 | every writer that installed, whether it succeeded, failed afterwards or died, put its own content one revision above the one it expected; two of them never expected the same revision |
| OperatorVault.InstallsHaveWriters | infra/demo/scripts/operator_vault.py:117-127 | every installed revision belongs to a writer that still holds the lock, has succeeded, or ended after its install |
| OperatorVault.ExactlyOneWriter | infra/demo/scripts/operator_vault.py:95-127 | from an empty directory, a writer installed a revision exactly if it is the one the history names |
| OperatorVault.PerformKeeps | infra/demo/scripts/operator_vault.py:95-122 | each file operation of the holder keeps the history |
| OperatorVault.PerformSpares | infra/demo/scripts/operator_vault.py:94 | and leaves true what every other writer relies on |
| OperatorVault.UnfinishedBackupBlocks | infra/demo/scripts/operator_vault.py:106-115 | a retained file that differs from the destination blocks every later seal: no file changes again |
| OperatorVault.UnfinishedBackupReachable | infra/demo/scripts/operator_vault.py:41-49 | two writers started on an empty directory get there: the second dies while it fills the retained file |
| OperatorVault.SealsExactly | infra/demo/scripts/operator_vault.py:82-127 | an undisturbed seal succeeds exactly from the expected revision, with a record that fits, and with the retained file absent or right; else no file changes |
| OperatorVault.SoloIsARun | infra/demo/scripts/operator_vault.py:94-127 | the undisturbed seal is the run of the protocol in which nobody else steps |
| OperatorVault.Vault.Seal | infra/demo/scripts/operator_vault.py:95-127 | the body under the lock leaves the files and the answer of that run, also when the directory cannot be flushed behind an install |
| SiteRecord.EveryRecordSound | infra/demo/scripts/site_lifecycle.py:172-182 | in every durable state of every run with crashes: steps are a completed prefix plus at most one begun, a verified stop is proved, a prepared teardown is bound to the receipts beside it |
| SiteRecord.EditKeeps | infra/demo/scripts/site_lifecycle.py:172-195 | every permitted edit keeps that |
| SiteRecord.BindingsKept | infra/demo/scripts/site_lifecycle.py:393-464 | teardown digests always equal those of the broker, archive, revocation and copy receipts in the same record; a cost review is bound to the broker receipt |
| SiteRecord.StopKept | infra/demo/scripts/site_lifecycle.py:355-377 | a verified stop has all stop steps completed and its receipts stored |
| SiteRecord.DrainKept | infra/demo/scripts/site_lifecycle.py:292-304 | a stored broker receipt is the drain's result and passed validate_drain |
| SiteRecord.IntentIsDurable | infra/demo/scripts/site_lifecycle.py:177-179 | no step acts before its intent, and the completion of every earlier step, is durable |
| SiteRecord.CompletedNeverActs | infra/demo/scripts/site_lifecycle.py:173-175 | a durably completed step never acts again in that operation; for a stop, never again |
| SiteRecord.StopIsForEver | infra/demo/scripts/site_lifecycle.py:184-195 | after a stop begins the record stays a stop of the same identity and is wanted stopped |
| SiteRecord.RecordsMoveForward | infra/demo/scripts/site_lifecycle.py:168-195 | durable records only move forward, whatever crashes |
| SiteRecord.ActsAreBounded | infra/demo/scripts/site_lifecycle.py:172-195 | over all processes a start step acts at most once, a stop step at most once more than there were processes given the exact stop |
| SiteRecord.UncertainNeedsIdentity | infra/demo/scripts/site_lifecycle.py:176 | a process acts on a step it finds begun only if it was given that operation's identity |
| SiteRecord.EvidenceIsDurable | infra/demo/scripts/site_lifecycle.py:557-563 | no budget call is made before its evidence, bound to the stored and validated broker receipt and no cheaper than it, is durable |
| SiteRecord.LineageInRun | infra/demo/scripts/site_lifecycle.py:219-234 | within a run no recorded object, withdrawal or split disappears |
| SiteRecord.HandOverGrows | infra/demo/scripts/site_lifecycle.py:466-528 | a hand-over follows a settled record and its prepared successor carries an extending ledger |
| SiteRecord.LineageNeverShrinks | infra/demo/scripts/site_lifecycle.py:466-528 | nor through any number of hand-overs, each of which takes the record that its run last prepared |
| SiteLifecycle.WitnessedIsLegal | infra/demo/scripts/site_lifecycle.py:160-195 | what the commands log is a legal log and ends in their state |
| SiteLifecycle.Lifecycle.Persist | infra/demo/scripts/site_lifecycle.py:595-604 | a save makes the whole copy durable or not at all; a success means it is durable |
| SiteLifecycle.Lifecycle.PerformStep | infra/demo/scripts/site_lifecycle.py:172-182 | a completed step is skipped with its result, an uncertain one refused unless resuming; otherwise exactly: intent, save, act, completion, save |
| SiteLifecycle.Lifecycle.BeginOperation | infra/demo/scripts/site_lifecycle.py:184-195 | resumes only the exact interrupted stop; otherwise a new operation with no steps and no receipts |
| SiteLifecycle.Lifecycle.StartRun | infra/demo/scripts/site_lifecycle.py:245-284 | refused without any effect unless the record is ready; success means every start step is durably completed |
| SiteLifecycle.Lifecycle.StopRun | infra/demo/scripts/site_lifecycle.py:355-381 | refused without any effect when already stopped; success means a durable verified stop, and every change on the way is a permitted one |
| SiteLifecycle.Lifecycle.FetchLedger | infra/demo/scripts/site_lifecycle.py:219-234 | a fresh ledger is accepted only if it extends the recorded one |
| SiteLifecycle.Lifecycle.PrepareTeardown | infra/demo/scripts/site_lifecycle.py:393-429 | an older preparation is withdrawn first; success means a durable preparation with this revocation |
| SiteLifecycle.Lifecycle.CopyArchive | infra/demo/scripts/site_lifecycle.py:431-464 | whatever it makes durable holds no earlier preparation; success means a durable verified stop with a copy on record |
| SiteLifecycle.Lifecycle.StoreCopy | infra/demo/scripts/site_lifecycle.py:456-463 | copy, ledger and proof become durable together |
| SiteLifecycle.Lifecycle.Reconcile | infra/demo/scripts/site_lifecycle.py:540-567 | in this order: evidence stored and saved, the budget call unless the run is already closed, the closure stored and saved |
| SiteLifecycle.Lifecycle.ChargeLedger | infra/demo/scripts/site_lifecycle.py:560-562 | the budget call is made with durable evidence and nothing else is logged |
| SiteLifecycle.Lifecycle.PrepareNextRun | infra/demo/scripts/site_lifecycle.py:466-528 | logs one draft, made from a settled record, whose ledger extends the recorded one; this record does not change |
| SiteLifecycle.Lifecycle.RunCommand | infra/demo/scripts/site_lifecycle.py:581-631 | every command, however it ends, extends the log legally |
| ArchiveLineage.CheckLineage | infra/demo/scripts/site_lifecycle.py:224-233 | accepts only extensions, and every extension whose keys are distinct |
| ArchiveLineage.ExtendsTransitive | infra/demo/scripts/site_lifecycle.py:224-233 | extension composes |
| Keyed.IndexEntries | infra/demo/scripts/archive_copy.py:46-47 | the dictionary loop: the last entry of a key wins, sizes are equal exactly when keys are distinct, and then the index holds exactly the entries |
| Keyed.ByKeyCounts | infra/demo/scripts/archive_copy.py:46-47 | the size comparison finds exactly the repeated keys |
| ArchiveInventory.ExpectedFiles | infra/demo/scripts/archive_copy.py:36-69 | succeeds exactly on the agreeing pairs and returns exactly the expected files and digests |
| ArchiveInventory.IndexInventory | infra/demo/scripts/archive_copy.py:39-45 | the first loop accepts exactly well-formed items |
| ArchiveInventory.IndexDeletions | infra/demo/scripts/archive_copy.py:48-54 | succeeds exactly on distinct tombstones |
| ArchiveInventory.CheckRecorded | infra/demo/scripts/archive_copy.py:58-66 | an item passes exactly when the ledger records it with the same digest and state |
| ArchiveInventory.AllRecorded | infra/demo/scripts/archive_copy.py:57-66 | all items pass |
| ArchiveInventory.IndexCounts | infra/demo/scripts/archive_copy.py:67-68 | the final count finds exactly the repeats among verified keys |
| ArchiveInventory.FlattenInvertible | infra/demo/scripts/archive_copy.py:185 | on accepted keys underscores back to slashes restores the key |
| ArchiveInventory.FlattenInjective | infra/demo/scripts/archive_copy.py:45 | so flattened names never collide |
| ArchiveInventory.BijectionExactly | infra/demo/scripts/archive_copy.py:36-69 | acceptance is a bijection of inventory and ledger exactly when no deleted entry repeats a key |
| ArchiveInventory.RepeatedDeletionAccepted | infra/demo/scripts/archive_copy.py:42-45 | an accepted inventory that repeats one deleted object and omits another |
| ArchiveInventory.Pigeonhole | infra/demo/scripts/archive_copy.py:55-56 | an injection between sets of equal size is onto and the two key sets are disjoint |
| ArchiveRemoval.RunSafe | infra/demo/scripts/archive_copy.py:131-165 | at every crash point of every run the files lie between what must remain and what was there, every missing one is named by the durable record, removals only grow and no file comes back |
| ArchiveRemoval.MaintainSafe | infra/demo/scripts/archive_copy.py:158-205 | every durable write of a round is a temporary file, a rename that forgets nothing, or the unlink of a file that the durable pending record names |
| ArchiveRemoval.FinishSafe | infra/demo/scripts/archive_copy.py:140-155 | recovery likewise, and where it leads |
| ArchiveRemoval.UnlinkEnds | infra/demo/scripts/archive_copy.py:148-152 | the unlink loop removes exactly the named files, in any order and however often named |
| ArchiveRemoval.RecoveryExactly | infra/demo/scripts/archive_copy.py:131-155 | recovery ends in exactly the expected files less the removed ones if and only if no temporary file was left |
| ArchiveRemoval.RecoveryConverges | infra/demo/scripts/archive_copy.py:140-155 | however often recovery is cut short, the next complete one ends where one undisturbed recovery would |
| ArchiveRemoval.LeftoverBlocks | infra/demo/scripts/archive_copy.py:132-134 | with a temporary file left no later run changes anything |
| ArchiveRemoval.LeftoverReachable | infra/demo/scripts/archive_copy.py:135-136 | a crash that leaves one is possible in every settled copy |
| ArchiveRemoval.SelectRemovals | infra/demo/scripts/archive_copy.py:183-204 | the loop over the files of its order succeeds exactly when each is unchanged or may go, and adds exactly those no longer kept |
| ArchiveRemoval.DroppedAre | infra/demo/scripts/archive_copy.py:184-204 | those are the old files that are not kept |
| ArchiveRemoval.RemovedObjectsAuthorized | infra/demo/scripts/archive_copy.py:189-194 | a batch or export object whose name may go has an entry of its key and digest that has expired or that the current ledger marks deleted |
| ArchiveRemoval.OwnParticipant | infra/demo/scripts/archive_copy.py:197 | a tombstone key contains a participant's identity exactly when it is that participant's own |
| ArchiveRemoval.FirstIsOwn | infra/demo/scripts/archive_copy.py:201 | hence the first withdrawal found for a tombstone is its own |
| ArchiveRemoval.TombstoneAgeExactly | infra/demo/scripts/archive_copy.py:195-203 | in a ledger that the collector accepts (web_demo/internal/collector/ledger.go:162-184), a tombstone may go exactly when thirty days have passed since its own withdrawal |
| ArchiveRemoval.RemovedTombstonesAged | infra/demo/scripts/archive_copy.py:195-203 | so every removed tombstone is thirty days old |
| ArchiveRemoval.Copy.ReplaceMaintenance | infra/demo/scripts/archive_copy.py:131-137 | writes through a temporary file, refused while one exists |
| ArchiveRemoval.Copy.FinishPending | infra/demo/scripts/archive_copy.py:140-155 | the recovery passes through exactly the specified durable states and succeeds only if nothing is pending |
| ArchiveRemoval.Copy.UnlinkAll | infra/demo/scripts/archive_copy.py:148-152 | the loop passes through the specified states |
| ArchiveRemoval.Copy.Select | infra/demo/scripts/archive_copy.py:173-204 | reads both proofs and ledgers; succeeds exactly when the current pair agrees and every old file is unchanged or released, and selects exactly the earlier names and the files no longer there |
| ArchiveRemoval.Copy.Choose | infra/demo/scripts/archive_copy.py:180-204 | the names of the round, under exactly the same condition: those the record already holds and the old files no longer there |
| ArchiveRemoval.Copy.Maintain | infra/demo/scripts/archive_copy.py:168-205 | a whole round passes through exactly the specified durable states; success means the current pair agrees; each batch or export object newly removed has expired or is marked deleted in the current ledger; each tombstone newly removed is thirty days old |
| ArchiveRemoval.Copy.ApplyRemoval | infra/demo/scripts/archive_copy.py:158-165 | the intent is durable before anything is unlinked |
| Utf8.DecodeIsInverse | feather-mesh/mesh_agent/src/provider.rs:671-680 | decoding inverts encoding, and the kept tail is nothing or a proper prefix of a character |
| Utf8.DecodeResumes | feather-mesh/mesh_agent/src/provider.rs:671-680 | decoding may be interrupted at any byte and resumed from the tail |
| Utf8.MoreMeansTruncated | feather-mesh/mesh_agent/src/provider.rs:674 | more input is asked for exactly on a proper prefix of a legal sequence (section 4 of RFC 3629) |
| SseParser.WholeStream | feather-mesh/mesh_agent/src/provider.rs:669-726 | for any bytes and any chunks: fail together with one-shot parsing; with no CR and LF separated the same events; lines equal exactly then |
| SseParser.ChunksDoNotMatter | feather-mesh/mesh_agent/src/provider.rs:670-709 | events, lines and final state of chunked parsing equal those of one-shot parsing unless a boundary separates a CR from its LF |
| SseParser.LinesAgreeExactly | feather-mesh/mesh_agent/src/provider.rs:697-709 | the lines agree exactly when no boundary does |
| SseParser.CompletedIsLines | feather-mesh/mesh_agent/src/provider.rs:699-707 | one push's lines against the stream's lines |
| SseParser.SplitChangesTheEvent | feather-mesh/mesh_agent/src/provider.rs:701 | cut between CR and LF, the same stream yields a different event |
| SseParser.BlockEvent | feather-mesh/mesh_agent/src/provider.rs:711-725 | an event is its block's data lines in order, joined by newlines |
| SseParser.BatchResumes | feather-mesh/mesh_agent/src/provider.rs:670-709 | one-shot parsing may be interrupted anywhere |
| SseParser.UndecodedTail | feather-mesh/mesh_agent/src/provider.rs:672-680 | the undecoded bytes are always a proper prefix of a legal sequence |
| SseParser.Parser.Push | feather-mesh/mesh_agent/src/provider.rs:670-682 | the method against the specified push, and failure on an invalid sequence |
| SseParser.Parser.PushPieces | feather-mesh/mesh_agent/src/provider.rs:697-709 | the loop over pieces completes the specified lines |
| SseParser.Parser.ProcessLine | feather-mesh/mesh_agent/src/provider.rs:711-726 | one line's effect on the open block |
| SseParser.Parser.Finish | feather-mesh/mesh_agent/src/provider.rs:684-695 | the end never yields an event, and fails exactly on an undecoded tail |
| ToolCalls.NewNames | feather-mesh/mesh_agent/src/provider.rs:475-497 | succeeds exactly on names that map to distinct safe names; the two maps are then mutual inverses |
| ToolCalls.AddAllGathers | feather-mesh/mesh_agent/src/provider.rs:623-653 | gathering succeeds exactly on consistent fragments and concatenates each index's arguments in order |
| ToolCalls.IndicesAscend | feather-mesh/mesh_agent/src/provider.rs:435 | the gathered indices come in ascending order, all of them |
| ToolCalls.CompleteCalls | feather-mesh/mesh_agent/src/provider.rs:433-454 | every check is made before any call is emitted |
| ToolCalls.Complete | feather-mesh/mesh_agent/src/provider.rs:436-453 | the checks on one entry |
| ToolCalls.ReadyMeansAcceptable | feather-mesh/mesh_agent/src/provider.rs:424-454 | readiness of the gathered map is acceptability of the stream |
| ToolCalls.ReadyCalls | feather-mesh/mesh_agent/src/provider.rs:433-454 | one call per mentioned index, ascending, distinct ids, names mapped back, arguments parsed from the concatenation |
| ToolCalls.ReadFrame | feather-mesh/mesh_agent/src/provider.rs:573-656 | one frame shows its usage and text and gathers its fragments, or fails |
| ToolCalls.ReadFrames | feather-mesh/mesh_agent/src/provider.rs:393-423 | reading shows no call |
| ToolCalls.Gather | feather-mesh/mesh_agent/src/provider.rs:623-653 | the loop over fragments |
| ToolCalls.Stream | feather-mesh/mesh_agent/src/provider.rs:387-461 | all or nothing: calls are emitted exactly for acceptable streams, Finished comes last, and an error has emitted no call |
| ToolCalls.EmittedEndsFinished | feather-mesh/mesh_agent/src/provider.rs:456-460 | what is emitted ends with Finished |
| AgentHistory.EvictionKeepsTurns | feather-mesh/mesh_agent/src/harness.rs:496-522 | eviction terminates, removes only whole oldest turns, keeps the system message and the two newest turns and the pairing; what is sent is what is kept |
| AgentHistory.CompleteAnswersOnce | feather-mesh/mesh_agent/src/harness.rs:422-480 | in a complete group each call has exactly one answer and nothing else is there |
| AgentHistory.AnswerCompletes | feather-mesh/mesh_agent/src/harness.rs:140-147 | the missing answer completes the pairing; until then the history is not paired |
| AgentHistory.NothingRepairs | feather-mesh/mesh_agent/src/harness.rs:124-127 | a group of calls cut short is repaired by nothing that does not begin with an answer |
| AgentHistory.EvictionRepairsExactly | feather-mesh/mesh_agent/src/harness.rs:508-518 | evicting up to a user message repairs it exactly when that message is behind the group |
| AgentHistory.PairedFrom | feather-mesh/mesh_agent/src/harness.rs:508-518 | a paired history stays paired from any of its user messages on |
| AgentHistory.PairedAppend | feather-mesh/mesh_agent/src/harness.rs:402-480 | pairing composes |
| AgentHistory.EvictShrinks | feather-mesh/mesh_agent/src/harness.rs:518 | one eviction removes exactly one turn |
| AgentHarness.ExpiryExactly | feather-mesh/mesh_agent/src/harness.rs:124-127 | after expiry the history is well formed exactly when no review was outstanding |
| AgentHarness.ExpiryLasts | feather-mesh/mesh_agent/src/harness.rs:124-127 | else no further paired messages repair it, and eviction does exactly from behind the open group on |
| AgentHarness.ExpiryExample | feather-mesh/mesh_agent/src/harness.rs:124-127 | such a history, its later turns, and the eviction that repairs it |
| AgentHarness.ToolExecutor.RegisterOperation | feather-mesh/mesh_agent/src/tools.rs:164-176 | a map of sixteen or more operations is cleared before the new one is added |
| AgentHarness.ToolExecutor.PrepareForReview | feather-mesh/mesh_agent/src/tools.rs:122-157 | preparing a stage or a withdrawal for review adds exactly that operation, without a limit |
| AgentHarness.ToolExecutor.Execute | feather-mesh/mesh_agent/src/tools.rs:196-248 | the guards in order, then the tool; only a prepared operation of the tool's own kind comes to review |
| AgentHarness.ToolExecutor.TakePreparedOperation | feather-mesh/mesh_agent/src/tools.rs:192-194 | the operation leaves the map |
| AgentHarness.Harness.RunMode | feather-mesh/mesh_agent/src/harness.rs:166-286 | at most max_tool_calls + 1 dispatches and max_tool_calls distinct executor calls; awaiting review exactly when one operation is handed out and pending; refused without effect while a review is pending; under a limit nothing is ever dispatched behind an unknown cost, whenever it became unknown |
| AgentHarness.Harness.RunTurns | feather-mesh/mesh_agent/src/harness.rs:240-494 | the loop terminates on the remaining allowance of calls |
| AgentHarness.Harness.Ask | feather-mesh/mesh_agent/src/harness.rs:241-413 | one pass up to the proposals, at most one dispatch |
| AgentHarness.Harness.Gate | feather-mesh/mesh_agent/src/harness.rs:249-286 | a dispatch under a limit has a known cost and room for its reservation |
| AgentHarness.Harness.Account | feather-mesh/mesh_agent/src/harness.rs:343-373 | while every charge stays within its reservation, spending stays within the limit; an unpriced request latches the unknown cost |
| AgentHarness.Harness.Conclude | feather-mesh/mesh_agent/src/harness.rs:374-413 | a response ends the run or brings one to nine proposals, never in guided mode |
| AgentHarness.Harness.AdmitCalls | feather-mesh/mesh_agent/src/harness.rs:414-421 | a batch passes only within the allowance and without any repetition |
| AgentHarness.Harness.RunBatch | feather-mesh/mesh_agent/src/harness.rs:422-489 | the review is the last call that reached the executor, every later one is rejected, and every other call is answered; the pairing is broken exactly when a cancellation came before the last call or left a review unanswered |
| AgentHarness.Harness.TakeCall | feather-mesh/mesh_agent/src/harness.rs:436-480 | one call: executed unless a local decision is outstanding, answered unless it opens a review |
| AgentHarness.Harness.StartTurn | feather-mesh/mesh_agent/src/harness.rs:190-195 | a new history starts with the system message; empty text adds nothing |
| AgentHarness.Harness.HandleCall | feather-mesh/mesh_agent/src/harness.rs:438-445 | a call behind a local decision never reaches the executor |
| AgentHarness.Harness.BoundedRequest | feather-mesh/mesh_agent/src/harness.rs:496-522 | the loop stops at the first history in the line of evictions that fits the request of its mode, or at two turns |
| AgentHarness.Harness.RecordReviewOutcome | feather-mesh/mesh_agent/src/harness.rs:128-149 | succeeds exactly for the pending operation, answers its call, and restores the pairing |
| AgentHarness.Harness.ExpireInterruptedState | feather-mesh/mesh_agent/src/harness.rs:124-127 | drops the review and every prepared operation; the history stays well formed exactly when no review was outstanding |
| AgentHarness.Harness.Invalidate | feather-mesh/mesh_agent/src/harness.rs:116-121 | forgets the conversation, the review and the prepared operations |
| EventCapture.RunKeeps | feather-mesh/mesh_tui/src/capture.rs:183-281 | over all interleavings: pending equals events being sent, queued or held; all events flow in order; until a loss they are exactly the numbered ones |
| EventCapture.AcknowledgedPrefix | feather-mesh/mesh_tui/src/capture.rs:188-196 | acknowledged numbers rise strictly; until a loss they are exactly the first k and the rest is the remaining suffix |
| EventCapture.EmptyMeansDelivered | feather-mesh/mesh_tui/src/capture.rs:275-281 | an empty counter and no loss, read one after the other, mean that everything was acknowledged |
| EventCapture.LostIsLatched | feather-mesh/mesh_tui/src/capture.rs:190-192 | a loss is never forgotten |
| EventCapture.Capture.Emit | feather-mesh/mesh_tui/src/capture.rs:255-273 | with the worker running or gone in between, the event is queued or the loss is latched: the channel refuses when it is full or disconnected |
| EventCapture.Capture.Work | feather-mesh/mesh_tui/src/capture.rs:184-200 | one atomic operation of the worker |
| EventCapture.Capture.Finish | feather-mesh/mesh_tui/src/capture.rs:275-281 | true only if every emitted event was acknowledged |
| StacSearch.WalkCollects | feather-mesh/mesh_core/src/stac_http.rs:242-322 | with any limits from 1 to 1000 the walk never fails, finishes exactly when they cover the result, and has then collected exactly the filtered result in order |
| StacSearch.PageFrom | feather-mesh/mesh_core/src/stac_http.rs:284-318 | one page is the next slice, and a next link exists exactly when items remain |
| StacSearch.StaleCursorRefused | feather-mesh/mesh_core/src/stac_http.rs:268-279 | a cursor of another catalogue state or query is refused with 409 |
| StacSearch.SnapshotExactly | feather-mesh/mesh_core/src/stac_http.rs:332-341 | equal snapshots mean equal lists of identifiers and revisions, both ways, when no identifier has the separator |
| StacSearch.IntersectsExactly | feather-mesh/mesh_core/src/stac.rs:338-343 | boxes intersect exactly when they share a point |
| StacSearch.MatchesTimesExactly | feather-mesh/mesh_core/src/stac.rs:345-368 | a readable time query matches exactly the intervals that share an instant with it |
| StacSearch.SearchItems | feather-mesh/mesh_core/src/stac.rs:319-336 | the filter keeps exactly the matching items in order |
| StacSearch.TakeSnapshot | feather-mesh/mesh_core/src/stac_http.rs:332-341 | the loop builds the specified material |
| StacSearch.ReadCursor | feather-mesh/mesh_core/src/stac_http.rs:268-283 | a cursor is malformed, stale, or an offset |
| StacSearch.SkipAndTake | feather-mesh/mesh_core/src/stac_http.rs:287-292 | the page is the slice |
| StacSearch.AnswerSearch | feather-mesh/mesh_core/src/stac_http.rs:242-322 | the checks in their order, then the page |
| StacLinks.HexRoundTrip | feather-mesh/mesh_core/src/stac_http.rs:349-360 | decoding inverts encoding |
| StacLinks.LinkCarriesExactly | feather-mesh/mesh_core/src/stac_http.rs:304-317 | a link carries its parameters exactly when none has a percent sign, plus sign or ampersand |
| StacLinks.LinkRereads | feather-mesh/mesh_core/src/stac_http.rs:374-386 | without ampersands each value is read as its unescaping, and the link fails exactly when one has none |
| StacLinks.AmpersandIsLost | feather-mesh/mesh_core/src/stac_http.rs:374-386 | with one, what is read is never what was written |
| StacLinks.PlainLinkReadsBack | feather-mesh/mesh_core/src/stac_http.rs:374-386 | a link of plain parameters is read back as exactly those |
| StacLinks.UnescapedExactly | feather-mesh/mesh_core/src/stac_http.rs:430-453 | decoding changes nothing exactly when there is nothing to decode |
| StacLinks.DecodePercent | feather-mesh/mesh_core/src/stac_http.rs:430-453 | the index loop computes the specified decoding or fails |
| StacLinks.ReadQuery | feather-mesh/mesh_core/src/stac_http.rs:374-386 | the loop over pieces, in which later parameters replace earlier ones |
| StacLinks.FileUriRoundTrip | feather-mesh/mesh_core/src/stac.rs:271-317 | a path comes back from its URI exactly when it is absolute |
| StacLinks.MakeFileUri | feather-mesh/mesh_core/src/stac.rs:271-283 | the escaping loop |
| StacLinks.ReadFileUri | feather-mesh/mesh_core/src/stac.rs:285-317 | the unescaping loop and its refusals |
| StacHref.LinkWalkCollects | feather-mesh/mesh_core/src/stac_http.rs:242-322 | a client that follows the text of the next links of a plain query collects exactly the filtered result in order, and finishes |
| StacHref.PlainLinksFollow | feather-mesh/mesh_core/src/stac_http.rs:304-317 | following that text is following the cursors |
| StacHref.EscapedLinkRefused | feather-mesh/mesh_core/src/stac_http.rs:242-283 | a next link with a value that escaping changes is answered exactly by 400 when a value or the box cannot be read, else by 409 |
| StacHref.EscapedLinkReads | feather-mesh/mesh_core/src/stac_http.rs:374-386 | what such a link is read as, or that it cannot be read |
| StacHref.SeparatorIsLost | feather-mesh/mesh_core/src/stac_http.rs:304-317 | a value with an ampersand is never read back |
| StacHref.QueryReadsBack | feather-mesh/mesh_core/src/stac_http.rs:299-317 | the five parameters of a link are the query they were made from |
| CommandLexer.SplitJoined | feather-mesh/mesh_tui/src/controls.rs:11-59 | for every list of words the lexer returns exactly the words that were quoted and joined by single spaces |
| CommandLexer.JoinedInjective | feather-mesh/mesh_tui/src/controls.rs:57-59 | so two word lists never share a command line |
| CommandLexer.RunShellQuote | feather-mesh/mesh_tui/src/controls.rs:57-59 | a quoted word is read as that word and nothing else |
| CommandLexer.SplitCommand | feather-mesh/mesh_tui/src/controls.rs:11-56 | the loop over characters computes the specified lexing |

## Left out

- Reordering of disk writes under power loss: a crash keeps every write that returned; a call to fsync matters only where its failure is reported.
- File permissions, ownership, symbolic links and link counts; directories are assumed to hold only the files named here.
- JSON, SHA-256, AES-GCM and signatures: serializations are invertible, equal digests mean equal values, and a torn vault file never decodes; a wrong vault key is not modelled.
- Sockets, HTTP, TLS, SSH, SQLite, Docker and systemd: each call works, fails or kills the process as its script says.
- Clocks and deadlines: a timeout is an outcome of a step, and times are parameters.
- SiteLifecycle.Lifecycle.Observe: stands for status, preflight, project and container checks that change nothing; their single conditions are not spelt out.
- SiteLifecycle.Lifecycle.Remote: the polling loop of the workspace wait and the several budget calls of one retained allocation are one act of their step.
- SiteLifecycle.Lifecycle.CopyArchive: the list of all earlier copies and their maintenance are not part of the record; only the current copy is.
- SiteLifecycle.Lifecycle.PrepareNextRun: the rotated broker configuration, manifest and service variables are not modelled, only the next record; a hand-over is sealed over the very record it was prepared from.
- ArchiveRemoval.Copy.Maintain: verify_copy appears without its exact-source mode and without the metadata and receipt files, which no removal touches; the choice that expire_copy makes is a parameter.
- ToolCalls.Stream: the byte cap and cancellation of the response are not modelled, nor the translation of message history into request bodies.
- SseParser.WholeStream: bare CR line endings, byte order marks and the event, id and retry fields, which the parser does not implement.
- AgentHarness.Harness.RunMode: text, usage totals, correlation identifiers and emitted interface events are left out; the redaction and size rules for outgoing requests are one predicate a mode, and the system message has no content.
- AgentHarness.Harness.Invalidate: switch_project, which forgets the same things and replaces the root, is not modelled apart from it.
- AgentHarness.ToolExecutor.Execute: what the reading tools answer is an input; drafts and integrity consents appear only through it.
- BrokerDrain.Server.AdmitRequest: handlers appear through their table steps and their leaving; capability checks, telemetry and the provider call are not modelled, and nothing of the accounts behind them.
- BrokerDrain.ReserveKeeps: the request limit, the per-account daily limit and the idempotency keys of reservations are not modelled; only the allocation bounds what may be reserved.
- BrokerDrain.Server.Checkpoint: writing the receipt file is not modelled.
- EventCapture.Capture.Emit: the content of events, and the connection state shown to the user, are left out; a submission is one call that may fail.
- StacSearch.AnswerSearch: reading boxes and timestamps from text is a parameter, as are limits except in StacHref; the rendered item values are not modelled.
- StacLinks.DecodePercent: an escape whose two characters cut a multi-byte character aborts the request in the source; it is a refusal here.
- Machine integers: sequence numbers, sizes and amounts do not wrap.
- The terminal interface, the command line programs, the configuration validators, the guide texts and the evaluation scripts.
