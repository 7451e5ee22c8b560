# Breeze RMM: backup helper, Exchange broker and companions, in Dafny

This project models the hardest logic of the Breeze remote-management repository and proves what its code and
documentation promise. Each module is one component:

- `ExecutionQueue`, `CommandCanceller`, `BackupPhases`: the backup helper's FIFO of workloads built from chained
  channels, the registry that cancels and joins commands, and the messages a queued export sends.
- `TextTruncation`, `ResultWarning`, `ResultText`, `Sanitizing`, `WarningReread`, `WarningKept`, `Json`,
  `JsonStrings`, `ResultBounds`, `ResultNotes`, `ResultEviction`, `ResultEvicted`, `ResultMeaning`, `ResultFitting`,
  `ResultLimits`, `ResultSent`, `ResultWire`, `ResultLog`: the four tiers that make any terminal result deliverable,
  from the byte-level clipping of UTF-8 text to the whole procedure.
- `ExchangeBroker`, `ExchangePipe`, `ExchangeService`: the pool of PowerShell workers with its two lock levels, the
  newline-framed pipe to one worker, and the two together.
- `RecoveryLock`: the hard-link lock of the recovery console.
- `ExportTraversal`, `Utf8Length`: the cursor traversal of the partner export and its byte counter.
- `RtpClock`, `FailoverUrl`: media-clock unwrapping and the watchdog's choice of control plane.
- `Bytes`, `Utf8`, `Options`: shared text, the UTF-8 automaton and an option type.

Concurrent code is a state machine: a step per atomic action, an invariant that every step keeps, and theorems over
all finite runs (for the queue also over infinite fair behaviours). Objects that the source updates in place are
classes whose methods are tied to those steps. Loops are methods tied to specification functions; the promises are
lemmas about the functions.

Where the code does not do what its comments say, the model follows the code and says exactly when the promise holds:

- A recovery lock can end with two holders after a holder's death or only a release
  (`RecoveryLock.TwoReclaimersBothHold`, `RecoveryLock.ReleaseAloneLetsTwoHold`, `RecoveryLock.GuardEndsIff`).
- A targeted stop can answer drained while the run it cancelled is still between the deletion and the close of its
  cleanup (`CommandCanceller.DrainedBeforeTheClose`, `CommandCanceller.DrainedThroughAnotherRun`,
  `CommandCanceller.AnswersEarlyIff`).
- A run text that ends in the first twelve bytes of the marker is read back as a note
  (`ResultWarning.SwallowedMarker`, `ResultWarning.RoundTripIff`, `ResultText.TextSurvivesIff`).
- A fitting result can be turned into a failure that names a limit of 0 bytes, although the comment on `describe` says
  a real number is always named (`ResultLimits.ClippingCanOverflow`, `ResultLimits.FittingStaysWholeIff`).
- Tier 3 can replace a warning that is a JSON array or object (`ResultSent.ContainerWarningIsLost`,
  `ResultSent.SentTextKeptIff`). Its comment also says that a very long snapshot id is bounded; the code bounds
  top-level strings only, and tier 4 is reached (`ResultSent.LongSnapshotIdNeedsTier4`).
- The comments say that no clamp can take the notes from a composed warning. A warning that is an array or object with
  ill-formed bytes is read back three times as long after the first note, and tier 3 clips that note away
  (`ResultEvicted.IndexNoteIsEvicted`, `ResultEviction.NotesSurviveIff`).
- The log text is said to be empty only when nothing was lost. A warning within its cap that contains the note label
  is longer once the label is rewritten, and is then clipped without a word (`ResultLog.ClippedInSilence`,
  `ResultLog.UnloggedIff`, `ResultLog.DropCountIff`).
- Records whose ids contain NUL can be reported as duplicates (`ExportTraversal.NulShiftsTheKey`,
  `ExportTraversal.KeyIsSharedIff`).
- A configuration read without `server_url` makes the watchdog forget its disk anchor
  (`FailoverUrl.EmptyUrlLosesTheAnchor`, `FailoverUrl.LeavesTheBackupIff`).

The rule that `rebind` states for its callers, that the new context descends from the tracked one, is kept by the
handlers themselves (`CommandCanceller.QueuedCommandsStayCancellable`).

Time, tickers, timeouts, process deaths and the network are steps or parameters that may happen at any point. Go's
integers are 64 bits wide where they are printed; lengths are otherwise unbounded.

## Model

| member | source | states |
|---|---|---|
| `ExecutionQueue.InvKept` | agent/cmd/breeze-backup/execution_queue.go:37-86 | every admission, cancellation, wait outcome, cleanup and close keeps the queue invariant: a closed `done` means a closed `previous` and a released ticket |
| `ExecutionQueue.RunKeepsInv` | agent/cmd/breeze-backup/execution_queue.go:37-86 | the invariant in every state of every interleaving from the empty queue |
| `ExecutionQueue.AtMostOneRunning` | agent/cmd/breeze-backup/execution_queue.go:57-86 | while a ticket is between a successful wait and its release, no later ticket runs and every later `previous` is open, whoever cancelled or failed |
| `ExecutionQueue.GrantsFollowAdmission` | agent/cmd/breeze-backup/execution_queue.go:57-71 | waits succeed in admission order, each only after every earlier ticket has closed |
| `ExecutionQueue.ClosesAtMostOnce` | agent/cmd/breeze-backup/execution_queue.go:72-86 | no close, direct or from a parked goroutine, meets a channel that is already closed |
| `ExecutionQueue.OneUnreleasedTicketPerId` | agent/cmd/breeze-backup/execution_queue.go:37-56 | an id has at most one unreleased ticket; admitting it again changes nothing |
| `ExecutionQueue.WaitEndsIff` | agent/cmd/breeze-backup/execution_queue.go:44-67 | over every run, in terms of the calls: a waiting ticket can be refused if and only if a cancellation named the context its own admission named, and can get the slot if and only if none did and every earlier ticket has closed |
| `ExecutionQueue.ParkedBehindAnOpenTicket` | agent/cmd/breeze-backup/execution_queue.go:72-86 | a close is handed to a parked goroutine only behind a ticket that is still open, and no channel is closed behind one |
| `ExecutionQueue.StepRefines` | agent/cmd/breeze-backup/execution_queue.go:37-86 | every step is a step, or no step, of a single-slot FIFO whose line only its head leaves for the slot |
| `ExecutionQueue.RunRefinesFifo` | agent/cmd/breeze-backup/execution_queue.go:37-86 | every run of the chained channels is a run of that FIFO |
| `ExecutionQueue.StepLowersWork` | agent/cmd/breeze-backup/execution_queue.go:57-86 | every action of a ticket up to i lowers the work left in front of i; no action of anyone raises it |
| `ExecutionQueue.NextOf` | agent/cmd/breeze-backup/execution_queue.go:57-86 | the action the first open ticket can always take once its `previous` is closed |
| `ExecutionQueue.SomebodyCanAct` | agent/cmd/breeze-backup/execution_queue.go:57-86 | no reachable state is stuck: while ticket i is open, some ticket up to i can act |
| `ExecutionQueue.EveryTicketCloses` | agent/cmd/breeze-backup/main.go:578-587 | in every infinite fair behaviour each admitted ticket is closed, so none wedges the workloads behind it |
| `ExecutionQueue.OnlyThroughTheSlot` | agent/cmd/breeze-backup/execution_queue.go:57-71 | a ticket that stays uncancelled leaves the line only by running |
| `ExecutionQueue.FairByTicket` | agent/cmd/breeze-backup/execution_queue.go:57-86 | weak fairness of each goroutine on its own gives the fairness used here, because nobody can take away a ticket's ability to act |
| `ExecutionQueue.UncancelledTicketRuns` | agent/cmd/breeze-backup/execution_queue.go:57-86 | a waiting ticket that is never cancelled gets the slot, whenever the tickets up to it are each weakly fair |
| `ExecutionQueue.AdmittedTicketRuns` | agent/cmd/breeze-backup/execution_queue.go:37-86 | the same in terms of the calls: a waiting ticket whose admission named a context that is never cancelled gets the slot |
| `ExecutionQueue.ReleasedForm` | agent/cmd/breeze-backup/main.go:578-587 | the deferred release of a handler that ran, was refused or left before waiting frees the id and closes `done`, or parks the close, depending on `previous` alone |
| `ExecutionQueue.ReleasedKeepsInv` | agent/cmd/breeze-backup/execution_queue.go:72-86 | release keeps the invariant, also for a ticket that never waited |
| `ExecutionQueue.ReleasedOnce` | agent/cmd/breeze-backup/execution_queue.go:72-86 | a second release changes nothing |
| `ExecutionQueue.BackupExecutionQueue.constructor` | agent/cmd/breeze-backup/execution_queue.go:32-36 | a new queue is the empty state |
| `ExecutionQueue.BackupExecutionQueue.Enqueue` | agent/cmd/breeze-backup/execution_queue.go:37-56 | a new id gets one more ticket, with this id, this context, the old tail as `previous` and a new open channel as `done`, which becomes the tail; every other ticket is unchanged; an admitted id gets none and changes nothing |
| `ExecutionQueue.BackupExecutionQueue.CancelContext` | agent/cmd/breeze-backup/execution_queue.go:57-67 | exactly this context becomes cancelled |
| `ExecutionQueue.BackupExecutionQueue.Select` | agent/cmd/breeze-backup/execution_queue.go:60-69 | each turn of the select loop is the matching step: slot, context error or heartbeat |
| `ExecutionQueue.BackupExecutionQueue.Wait` | agent/cmd/breeze-backup/execution_queue.go:57-71 | from admission on: it succeeds exactly when `previous` is closed and the context is live, and then nobody else runs; it fails exactly when the context is cancelled |
| `ExecutionQueue.BackupExecutionQueue.Release` | agent/cmd/breeze-backup/execution_queue.go:72-86 | from every phase outside `wait` the id is free and the ticket closed or parked |
| `ExecutionQueue.BackupExecutionQueue.CloseParkedTicket` | agent/cmd/breeze-backup/execution_queue.go:72-86 | the parked goroutine closes exactly its own ticket, once `previous` is closed |
| `CommandCanceller.InvKept` | agent/cmd/breeze-backup/main.go:75-141 | every interleaving of track, cleanup, rebind, cancel and targeted stop keeps the registry invariant |
| `CommandCanceller.MapsAgree` | agent/cmd/breeze-backup/main.go:53-100 | in every state of every run the three maps have the same ids, and an id has at most one tracked run |
| `CommandCanceller.OnlyTheFirstTrackerRemoves` | agent/cmd/breeze-backup/main.go:75-100 | an id leaves the maps exactly by the cleanup of the call that registered it; nested calls and their cleanups change nothing |
| `CommandCanceller.DrainedStopMeansCleanedUp` | agent/cmd/breeze-backup/main.go:715-738 | a stop that answered stopped has cancelled a run of its id; answering drained through that run's own channel means its whole cleanup is done, even if the id is tracked again, and any other drained answer means that it has been deleted |
| `CommandCanceller.FetchesOwnChannelIff` | agent/cmd/breeze-backup/main.go:126-131 | the stop waits on its run's own channel if and only if the run is still registered when it fetches |
| `CommandCanceller.AnswersAtOnceIff` | agent/cmd/breeze-backup/main.go:126-131 | it can answer drained at once while that run is still unwinding if and only if the cleanup is between its deletion and its close and the id is not tracked again |
| `CommandCanceller.AnswersEarlyIff` | agent/cmd/breeze-backup/main.go:126-141 | over all continuations of every run: after the fetch the stop can come to answer drained while the run it cancelled is not drained if and only if at the fetch that run is between its deletion and its close, tracked again or not |
| `CommandCanceller.DrainedBeforeTheClose` | agent/cmd/breeze-backup/main.go:91-99 | a six-step run that does so with no channel to wait for |
| `CommandCanceller.DrainedThroughAnotherRun` | agent/cmd/breeze-backup/main.go:126-141 | a ten-step run that does so by waiting for a later run of the same id |
| `CommandCanceller.CancelReachesContextIff` | agent/cmd/breeze-backup/main.go:102-124 | over every run: cancelling an id reaches the context handed out for it if and only if the last rebind since it was tracked, if any, named a context of the tracked run |
| `CommandCanceller.OwnRebindDescends` | agent/cmd/breeze-backup/main.go:616-626 | a rebind by a queued handler names the run tracked under its command |
| `CommandCanceller.QueuedCommandsStayCancellable` | agent/cmd/breeze-backup/main.go:600-641 | so, when only queued handlers rebind, every id stays cancellable through its context in every run: the order of track, guard, rebind and release keeps the rule that rebind states |
| `CommandCanceller.HandlerGoesThrough` | agent/cmd/breeze-backup/main.go:600-641 | whoever is queued under a free id can enter and rebind, and the command then hands out the guarded context of the run that its cancel function cancels |
| `CommandCanceller.OnlyTheOwnerReleases` | agent/cmd/breeze-backup/main.go:578-587 | while a handler is active no other part of the helper can delete its run, and its own release frees the id |
| `CommandCanceller.StaleRebindLosesCancellation` | agent/cmd/breeze-backup/main.go:102-110 | a run that breaks the rule, and loses the cancellation |
| `CommandCanceller.CancelEach` | agent/cmd/breeze-backup/main.go:143-160 | each snapshotted cancel is called once and nothing else is cancelled |
| `CommandCanceller.ActiveCommandCanceller.constructor` | agent/cmd/breeze-backup/main.go:63-69 | a new registry is empty |
| `CommandCanceller.ActiveCommandCanceller.TrackCommand` | agent/cmd/breeze-backup/main.go:75-90 | the new state is the tracking step; the second caller gets the existing context |
| `CommandCanceller.ActiveCommandCanceller.CleanUp` | agent/cmd/breeze-backup/main.go:91-99 | the three deletes, the cancel and the close, as the cleanup steps |
| `CommandCanceller.ActiveCommandCanceller.RebindContext` | agent/cmd/breeze-backup/main.go:102-110 | replaces the context of a tracked id only |
| `CommandCanceller.ActiveCommandCanceller.CancelCommand` | agent/cmd/breeze-backup/main.go:112-122 | cancels the tracked run and tells whether there was one |
| `CommandCanceller.ActiveCommandCanceller.CancelAll` | agent/cmd/breeze-backup/main.go:143-160 | cancels every tracked run, and answers false when there is none |
| `BackupPhases.InvKept` | agent/cmd/breeze-backup/main.go:596-671 | every step of the handler and of the heartbeat goroutine keeps the message history a word of the phase order |
| `BackupPhases.MessagesComeInOrder` | agent/cmd/breeze-backup/main.go:596-671 | in every interleaving: queued one or more times, then possibly starting with any number of executing, then exactly one terminal result, last |
| `BackupPhases.FailedAckIsSilent` | agent/cmd/breeze-backup/main.go:655-658 | a command whose acknowledgement cannot be delivered sends nothing, runs nothing and takes no further step |
| `BackupPhases.WithdrawnOnlyReports` | agent/cmd/breeze-backup/main.go:600-641 | a command that is cancelled while it waits, or whose guard fails, sends the terminal result and nothing else |
| `BackupPhases.NoBeatAfterStop` | agent/cmd/breeze-backup/execution_queue.go:90-105 | once stop has returned the heartbeat goroutine has no step left, so nothing follows the result |
| `BackupPhases.JoinNeverHangs` | agent/cmd/breeze-backup/execution_queue.go:90-105 | while stop waits, the goroutine can move, and can return as soon as it is back at its select |
| `BackupPhases.Execution.constructor` | agent/cmd/breeze-backup/main.go:578-596 | a fresh command |
| `BackupPhases.Execution.QueuedWhile` | agent/cmd/breeze-backup/execution_queue.go:57-71 | a run with one queued message per tick until the wait ends |
| `BackupPhases.Execution.ExecutingWhile` | agent/cmd/breeze-backup/execution_queue.go:90-105 | a run of handler and goroutine with one executing message per tick, then the stop and the join |
| `BackupPhases.Execution.Handle` | agent/cmd/breeze-backup/main.go:596-671 | for every number of ticks and every outcome of the two waits there is a run that sends exactly the word of the order that they call for: every word occurs |
| `TextTruncation.TruncateText` | agent/cmd/breeze-backup/result_bounds.go:455-469 | the back-off loop returns the specified clipped text and dropped count |
| `TextTruncation.Cut` | agent/cmd/breeze-backup/result_bounds.go:455-469 | the cut is the last position up to the cap at which a rune starts |
| `TextTruncation.TruncatedIsBounded` | agent/cmd/breeze-backup/result_bounds.go:452-471 | the result exceeds the cap by the mark only (at most 42 bytes for a Go length), is a prefix plus mark, and stays valid UTF-8 |
| `TextTruncation.CutLosesLessThanARune` | agent/cmd/breeze-backup/result_bounds.go:452-471 | on valid UTF-8 the back-off loses at most three bytes |
| `TextTruncation.KeptPrefixSurvives` | agent/cmd/breeze-backup/result_bounds.go:455-469 | a prefix that ends where a rune starts survives any further clipping to a cap it fits |
| `TextTruncation.ClippedTwiceKeeps` | agent/cmd/breeze-backup/result_bounds.go:455-469 | clipping twice keeps all that the first clipping kept |
| `TextTruncation.ClippedTwiceReports` | agent/cmd/breeze-backup/result_bounds.go:455-469 | when a second clipping fires, and that it then reports only the bytes it dropped itself |
| `ResultWire.ClippedTextReads` | agent/cmd/breeze-backup/result_bounds.go:452-469 | printable text over its cap reads as its first bytes, an ellipsis and the number of bytes dropped |
| `Utf8.ValidIffOctets` | agent/cmd/breeze-backup/result_bounds.go:471 | the automaton behind the rune test accepts exactly the sequences of section 4 of RFC 3629 |
| `Utf8.CutBeforeRune` | agent/cmd/breeze-backup/result_bounds.go:455-471 | cutting valid text in front of a byte that passes the rune test leaves valid text |
| `ResultWarning.ComposedFits` | agent/cmd/breeze-backup/result_bounds.go:102-118 | a composed warning is within 8192 bytes for every text and every notes: the split budget is total |
| `ResultWarning.NeutralizedIsFree` | agent/cmd/breeze-backup/result_bounds.go:787-789 | neutralising leaves no label and makes no new one |
| `ResultWarning.NeutralizedSame` | agent/cmd/breeze-backup/result_bounds.go:787-789 | and leaves text without the label alone |
| `ResultWire.LabelIsRewritten` | agent/cmd/breeze-backup/result_bounds.go:787-789 | the first label in a text becomes `bounded : ` and nothing before it changes |
| `ResultWarning.TruncatedIsFree` | agent/cmd/breeze-backup/result_bounds.go:455-469 | clipping makes no label |
| `ResultWarning.SplitOfBoth` | agent/cmd/breeze-backup/result_bounds.go:743-785 | what splitting makes of any label-free text and any notes joined by the marker, in both cases |
| `ResultWarning.RoundTripIff` | agent/cmd/breeze-backup/result_bounds.go:743-785 | splitting a composed warning returns the clamped text and notes if and only if the text does not end like the start of the marker (and, without text, the notes contain no marker) |
| `ResultWarning.RoundTrip` | agent/cmd/breeze-backup/result_bounds.go:743-785 | for label-free notes the only exception is a text that ends in the first twelve bytes of the marker |
| `ResultWarning.SwallowedMarker` | agent/cmd/breeze-backup/result_bounds.go:743-785 | that exception is real: such a text is read back as a note |
| `ResultWarning.ComposeKeepsTail` | agent/cmd/breeze-backup/result_bounds.go:743-785 | for every text the last notes come back, lengthened by twelve bytes at most |
| `ResultWarning.AppendCarries` | agent/cmd/breeze-backup/result_bounds.go:795-804 | appending keeps all notes so far, in order and clamped to their own cap, for up to seven of them and every text |
| `ResultWarning.AppendKeepsText` | agent/cmd/breeze-backup/result_bounds.go:795-804 | and keeps the part of the text that the first clamp kept |
| `ResultWarning.TextAndNotesSurvive` | agent/cmd/breeze-backup/result_bounds.go:79-118 | both, over any sequence of up to seven appends, within the cap |
| `ResultText.SwallowedForGood` | agent/cmd/breeze-backup/result_bounds.go:743-804 | a text that ends like the start of the marker is shortened by the first note, and no later note gives the bytes back |
| `ResultText.TextSurvivesIff` | agent/cmd/breeze-backup/result_bounds.go:743-804 | for every text and up to seven notes the kept text survives if and only if there is no note or it does not end like that |
| `ResultWarning.ComposeValid` | agent/cmd/breeze-backup/result_bounds.go:768-785 | composing valid UTF-8 gives valid UTF-8 |
| `ResultWarning.AppendValid` | agent/cmd/breeze-backup/result_bounds.go:795-804 | appending to valid UTF-8 gives valid UTF-8 |
| `Json.EscapedLength` | agent/cmd/breeze-backup/result_bounds.go:444-450 | JSON string encoding never shrinks and grows at most sixfold |
| `Json.EscapedIsSafe` | agent/cmd/breeze-backup/result_bounds.go:486-492 | for every text no control byte and none of `<`, `>`, `&` is in what is written |
| `Json.OrdinaryIsKept` | agent/cmd/breeze-backup/result_bounds.go:486-492 | ASCII that needs no escape is written as it is |
| `Json.EncodedLength` | agent/cmd/breeze-backup/result_bounds.go:486-492 | a bound on an encoded object from bounds on its entries |
| `Json.SortStrings` | agent/cmd/breeze-backup/result_bounds.go:556-576 | selecting the least key again and again gives the sorted key list |
| `Json.SortedIncreases` | agent/cmd/breeze-backup/result_bounds.go:556-576 | that list is strictly increasing in byte order |
| `Json.EncodeObject` | agent/cmd/breeze-backup/result_bounds.go:486-492 | the encoding lists the entries in key order |
| `Json.PairIsWritten` | agent/cmd/breeze-backup/result_bounds.go:486-492 | an object is written in braces with its keys in byte order, colons and commas |
| `JsonStrings.UnescapesToSanitized` | agent/cmd/breeze-backup/result_bounds.go:808-814 | decoding what was encoded gives the text with U+FFFD for every ill-formed byte |
| `JsonStrings.UnitsReadBack` | agent/cmd/breeze-backup/result_bounds.go:808-814 | for every sequence of UTF-16 code units written as escapes, paired or not, the decoder reads the UTF-8 of the text they stand for |
| `JsonStrings.RawStringReadsBack` | agent/cmd/breeze-backup/result_bounds.go:808-814 | the decoded form of a written string is what the decoder reads in its bytes |
| `JsonStrings.StringRoundTripIff` | agent/cmd/breeze-backup/result_bounds.go:808-814 | a text survives being written and read if and only if it is valid UTF-8 |
| `ResultBounds.MarshalledLength` | agent/cmd/breeze-backup/result_bounds.go:444-450 | lower and upper bound of the marshalled result from its three texts |
| `ResultBounds.CheapTestIsSound` | agent/cmd/breeze-backup/result_bounds.go:354-373 | the test on raw lengths rejects nothing that the marshalled test would accept |
| `ResultBounds.LastResortFits` | agent/cmd/breeze-backup/result_bounds.go:686-720 | the minimal status is within both budgets, under worst-case escaping applied twice |
| `ResultBounds.OversizeFits` | agent/cmd/breeze-backup/result_bounds.go:661-672 | the oversize failure is within both budgets |
| `ResultBounds.AlwaysFits` | agent/cmd/breeze-backup/result_bounds.go:197-271 | for every input the result that is sent is within every delivery limit |
| `ResultFitting.DeleteBulk` | agent/cmd/breeze-backup/result_bounds.go:556-576 | the deleting loop removes exactly the bulk containers, in any order of the keys |
| `ResultFitting.KeepScalars` | agent/cmd/breeze-backup/result_bounds.go:605-646 | the two loops of tier 3 keep exactly the scalars, clamp exactly the long strings and collect exactly the containers |
| `ResultFitting.KeepSummary` | agent/cmd/breeze-backup/result_bounds.go:605-646 | and put the snapshot identity back |
| `ResultFitting.ResultObject.constructor` | agent/cmd/breeze-backup/result_bounds.go:475-484 | the decoded body |
| `ResultFitting.ResultObject.BoundObjectWarning` | agent/cmd/breeze-backup/result_bounds.go:502-515 | the new body and the dropped count are those of the specification |
| `ResultFitting.ResultObject.EmptySnapshotFiles` | agent/cmd/breeze-backup/result_bounds.go:521-549 | the new body has an empty index and its note, the count is that of the old index |
| `ResultFitting.ResultObject.DropBulkFields` | agent/cmd/breeze-backup/result_bounds.go:556-576 | the new body lacks the bulk fields and names them in sorted order |
| `ResultFitting.ResultObject.ReduceToScalars` | agent/cmd/breeze-backup/result_bounds.go:600-654 | the new body is that of tier 3 |
| `ResultFitting.RecoverStrings` | agent/cmd/breeze-backup/result_bounds.go:687-695 | exactly the string-valued status fields, clipped |
| `ResultFitting.LastResortBody` | agent/cmd/breeze-backup/result_bounds.go:686-720 | the minimal status of the specification |
| `ResultFitting.RunTier2` | agent/cmd/breeze-backup/result_bounds.go:225-244 | tier 2 edits in the order of the source |
| `ResultFitting.RunTier4` | agent/cmd/breeze-backup/result_bounds.go:264-270 | tier 4 clips the two other texts as well |
| `ResultFitting.RunTiers` | agent/cmd/breeze-backup/result_bounds.go:225-270 | the first tier of 2 and 3 whose result fits, else tier 4 |
| `ResultFitting.FirstIsSent` | agent/cmd/breeze-backup/result_bounds.go:225-270 | that tier is the one the specification sends |
| `ResultFitting.FitBackupResult` | agent/cmd/breeze-backup/result_bounds.go:197-271 | the whole procedure returns the specified result, log notes and named limit |
| `ResultNotes.SnapshotNoteIsClean` | agent/cmd/breeze-backup/result_bounds.go:521-549 | the note on the file index can be told from a marker and holds no label |
| `ResultNotes.OmittedNoteIsClean` | agent/cmd/breeze-backup/result_bounds.go:556-576 | so can the note on dropped fields, for label-free keys |
| `ResultNotes.LastResortNoteIsClean` | agent/cmd/breeze-backup/result_bounds.go:712-714 | so can the note of tier 4 |
| `ResultNotes.BulkOfIndexless` | agent/cmd/breeze-backup/result_bounds.go:502-576 | the warning itself is never dropped as a bulk field; every other bulk field of the input is |
| `ResultNotes.Tier2Warning` | agent/cmd/breeze-backup/result_bounds.go:502-576 | for every body: after tier 2 the warning is the run text, clamped once, with the notes of tier 2 appended, each append written as JSON and read back |
| `ResultNotes.Tier3Warning` | agent/cmd/breeze-backup/result_bounds.go:600-654 | for every body: tier 3 reads it back, drops a container, clips a text over 8192 bytes, and appends its note |
| `ResultNotes.Tier4Warning` | agent/cmd/breeze-backup/result_bounds.go:704-714 | tier 4 reads it back and appends to it |
| `ResultNotes.WarningAfterTier` | agent/cmd/breeze-backup/result_bounds.go:502-720 | for every body and whichever tier ends the degradation: the warning as a fold over all the notes of all tiers, clipped or replaced at tier 3 only |
| `Sanitizing.SanitizedConcat` | agent/cmd/breeze-backup/result_bounds.go:743-804 | text that is read back is read back piece by piece, cut where a character starts |
| `Sanitizing.SanitizedAround` | agent/cmd/breeze-backup/result_bounds.go:743-804 | reading back commutes with splitting at the marker |
| `Sanitizing.SanitizedFree` | agent/cmd/breeze-backup/result_bounds.go:787-789 | and makes no new label or marker |
| `Sanitizing.SwallowsSanitized` | agent/cmd/breeze-backup/result_bounds.go:743-804 | nor does it make or remove an end like the start of a marker |
| `WarningReread.FirstNote` | agent/cmd/breeze-backup/result_bounds.go:743-804 | the first note on ill-formed bytes is read back as the text with every bad byte three bytes long, the marker and the note |
| `WarningReread.ReadCarries` | agent/cmd/breeze-backup/result_bounds.go:79-118 | however the text reads back, without clipping every note is carried |
| `WarningReread.LongHasOneNote` | agent/cmd/breeze-backup/result_bounds.go:102-118 | a noted warning is over 8192 bytes only with exactly one note and a text that was ill formed |
| `WarningReread.ClippingLosesNote` | agent/cmd/breeze-backup/result_bounds.go:634-645 | wherever the cut falls, clipping such a warning leaves no whole note behind the marker, unless it changes nothing |
| `WarningReread.ClippedIsLost` | agent/cmd/breeze-backup/result_bounds.go:634-645 | and no further note brings it back |
| `ResultEviction.SnapshotNoteIsDistinctive` | agent/cmd/breeze-backup/result_bounds.go:521-549 | a clipped index note never ends with the whole note |
| `ResultEviction.OmittedNoteIsDistinctive` | agent/cmd/breeze-backup/result_bounds.go:556-576 | nor does a clipped note on dropped fields |
| `ResultEviction.OverlongIff` | agent/cmd/breeze-backup/result_bounds.go:502-576 | the condition on the input says exactly when tier 3 will clip a warning that carries a note |
| `ResultEviction.NotesSurviveIff` | agent/cmd/breeze-backup/result_bounds.go:79-118 | for every body with legible field names and every tier: each note of each tier is in the final warning, in order and clamped to its own cap only, if and only if tier 3 is not reached or the warning is not overlong as it came in; a well-formed one never is, and stays within 8192 bytes |
| `ResultEvicted.IndexNoteIsEvicted` | agent/cmd/breeze-backup/result_bounds.go:634-645 | of a result with a warning of 3000 ill-formed bytes in an array, one file and a long log, tier 3 sends the second note only |
| `ResultNotes.LosesTextIff` | agent/cmd/breeze-backup/result_bounds.go:600-654 | tier 3 drops the run text if and only if the input has a container warning that the first clamp leaves alone, no file index and no other bulk field |
| `ResultNotes.SentBody` | agent/cmd/breeze-backup/result_bounds.go:197-271 | the body that is sent is the body of the tier those statements are about |
| `ResultMeaning.Tier2Keeps` | agent/cmd/breeze-backup/result_bounds.go:502-576 | tier 2 keeps every scalar field other than the warning |
| `ResultMeaning.Tier2KeepsSnapshot` | agent/cmd/breeze-backup/result_bounds.go:521-549 | tier 2 keeps every snapshot field other than files; an array of files is kept whole or becomes empty |
| `ResultMeaning.Tier3Keeps` | agent/cmd/breeze-backup/result_bounds.go:600-654 | tier 3 keeps every scalar field other than the warning, clipping long strings only |
| `ResultMeaning.Tier3KeepsIdentity` | agent/cmd/breeze-backup/result_bounds.go:614-630 | tier 3 keeps every snapshot identity field and an empty files |
| `ResultMeaning.SummaryKept` | agent/cmd/breeze-backup/result_bounds.go:225-262 | through tiers 2 and 3 every scalar keeps its value, or its prefix when it is over 8 KiB |
| `ResultMeaning.SnapshotIdentityKept` | agent/cmd/breeze-backup/result_bounds.go:225-262 | through tiers 2 and 3 every snapshot identity field keeps its value |
| `ResultMeaning.StatusSurvives` | agent/cmd/breeze-backup/result_bounds.go:686-695 | an id, job id or status of ordinary length reaches the server verbatim through every tier |
| `ResultMeaning.SnapshotIdSurvives` | agent/cmd/breeze-backup/result_bounds.go:696-703 | tier 4 reports the id of the snapshot object as snapshotId |
| `ResultMeaning.SuccessKept` | agent/cmd/breeze-backup/result_bounds.go:661-672 | success is never raised, and lowered only for a body that is no object and cannot be sent; duration and command id stay |
| `ResultWire.SnapshotFieldsKept` | agent/cmd/breeze-backup/result_bounds.go:149 | snapshot.id, timestamp, size, formatVersion and baseSnapshotId come through tiers 2 and 3 as they were |
| `ResultWire.SnapshotIsBare` | agent/cmd/breeze-backup/result_bounds.go:614-632 | after tier 3 the snapshot holds nothing else but an empty `files` |
| `ResultWire.IndexIsAllOrNothing` | agent/cmd/breeze-backup/result_bounds.go:521-549 | from tier 2 on a file index is an empty array, never part of one |
| `ResultWire.NamedStringsSurvive` | agent/cmd/breeze-backup/result_bounds.go:686-695 | id, jobId and status of at most 1024 bytes reach the server verbatim through every tier |
| `ResultWire.LongStringsAreClipped` | agent/cmd/breeze-backup/result_bounds.go:634-646 | a top-level string over 8192 bytes is clipped by tier 3, any other scalar but the warning stays |
| `ResultWire.SnapshotIsNamed` | agent/cmd/breeze-backup/result_bounds.go:696-703 | tier 4 reports the id of the snapshot object as snapshotId, or else the snapshotId that was there |
| `ResultWire.LastResortNames` | agent/cmd/breeze-backup/result_bounds.go:686-720 | tier 4 sends id, jobId, status, snapshotId and warning at most, all of them strings |
| `ResultWire.BulkIsDropped` | agent/cmd/breeze-backup/result_bounds.go:556-576 | tier 2 drops a field if and only if it is an array or object of more than 4096 bytes other than snapshot and warning |
| `ResultWire.NotesAreUnderWarning` | agent/cmd/breeze-backup/result_bounds.go:521-576 | a tier that has noted anything sends `warning` as a string |
| `ResultWire.NotedWarningReads` | agent/cmd/breeze-backup/result_bounds.go:743-804 | a warning of at most 3987 bytes with one note, and with two, as it reads: the text, the marker and the notes cut to 512 bytes each |
| `ResultWire.ShortWarningStays` | agent/cmd/breeze-backup/result_bounds.go:502-515 | a warning of at most 3987 bytes without the label is left alone by tier 2, whatever its type |
| `ResultWire.ScalarBodyStays` | agent/cmd/breeze-backup/result_bounds.go:600-654 | tier 3 changes nothing in a body without arrays, objects and long strings |
| `ResultWire.OperatorReads` | agent/cmd/breeze-backup/result_bounds.go:521-549 | what the operator reads, word for word, when only the file index was dropped: the run's warning, the marker, the number of entries and the server budget |
| `ResultWire.OversizeIsAFailure` | agent/cmd/breeze-backup/result_bounds.go:661-672 | an oversize body that is no object is answered with a failure and no output |
| `ResultWire.WithinBothBudgets` | agent/cmd/breeze-backup/result_bounds.go:44-77 | whatever comes in, at most 4,934,464 bytes of stdout and 16,711,680 bytes in all are sent |
| `ResultWire.LimitIsNamed` | agent/cmd/breeze-backup/result_bounds.go:197-287 | the limit that is named: the server budget, else the frame budget, else the free-text cap if and only if stderr is over 8192 bytes, else none |
| `ResultWire.OnlyStderrClipped` | agent/cmd/breeze-backup/result_bounds.go:273-287 | a result that only has its stderr clipped names the free-text cap and the number of bytes |
| `ResultLog.LogReads` | agent/cmd/breeze-backup/result_bounds.go:225-270 | the log line, word for word, in terms of the body that came in: what tier 2 took out and how far the tiers went |
| `ResultLog.SilentIff` | agent/cmd/breeze-backup/result_bounds.go:178-187 | nothing is logged if and only if stderr is within its cap and the result fits as it is, or fits once encoded again with nothing to report |
| `ResultLog.SentInSilence` | agent/cmd/breeze-backup/result_bounds.go:178-187 | and then every field but the warning is sent as it came in |
| `ResultLog.DropCountIff` | agent/cmd/breeze-backup/result_bounds.go:502-515 | the number of bytes logged as dropped from a rewritten warning is the number dropped if and only if none is or the warning does not contain the note label |
| `ResultLog.UnloggedIff` | agent/cmd/breeze-backup/result_bounds.go:502-515 | a warning is clipped with nothing logged if and only if it is within its cap as it comes in and over it once its labels are rewritten |
| `ResultLog.ClippedInSilence` | agent/cmd/breeze-backup/result_bounds.go:178-187 | a result whose warning is clipped while the log line is empty |
| `ResultLimits.FittingIsUntouched` | agent/cmd/breeze-backup/result_bounds.go:197-219 | a result within the limits with stderr within its cap is sent unchanged, with nothing logged |
| `ResultLimits.FrameSize` | agent/cmd/breeze-backup/result_bounds.go:444-450 | the exact size of a marshalled result |
| `ResultLimits.ClippingCanOverflow` | agent/cmd/breeze-backup/result_bounds.go:209-231 | a fitting, successful result that is sent as a failure naming a 0 byte limit, because the mark of tier 1 is longer than the byte it replaces |
| `ResultLimits.FittingStaysWholeIff` | agent/cmd/breeze-backup/result_bounds.go:209-222 | a fitting result keeps all of its output if and only if what the mark adds still fits the frame budget |
| `ResultSent.NotedIff` | agent/cmd/breeze-backup/result_bounds.go:521-654 | no tier has written a note if and only if the input has no file index, no bulk field and, from tier 3 on, no container that tier 3 would drop |
| `WarningKept.TextKeptIff` | agent/cmd/breeze-backup/result_bounds.go:743-804 | a well-formed label-free text of any length survives the notes if and only if there are none or it does not end, clamped, like the start of the marker |
| `WarningKept.WholeKeptIff` | agent/cmd/breeze-backup/result_bounds.go:743-804 | a text read back with its first note survives if and only if it does not end like that within what is kept |
| `WarningKept.ClippedKeeps` | agent/cmd/breeze-backup/result_bounds.go:634-645 | a text that tier 3 has clipped survives every later note |
| `ResultSent.TextAfterTierIff` | agent/cmd/breeze-backup/result_bounds.go:502-720 | the same for the body of every tier |
| `ResultSent.SentTextKeptIff` | agent/cmd/breeze-backup/result_bounds.go:197-271 | for every degraded result with legible field names: the warning that is sent, as it reads, starts with the kept run text, except in exactly two cases seen on the input: a container that tier 3 drops, or a text that ends like a marker when there is something to note |
| `ResultSent.LogNeedsTier3` | agent/cmd/breeze-backup/result_bounds.go:246-262 | a result that is sent by tier 3 |
| `ResultSent.ContainerWarningIsLost` | agent/cmd/breeze-backup/result_bounds.go:600-654 | of that result nothing of the original warning is in the warning that is sent |
| `ResultSent.LongSnapshotIdNeedsTier4` | agent/cmd/breeze-backup/result_bounds.go:614-646 | a long snapshot id is not bounded by tier 3, so that result is sent by tier 4 |
| `ExchangeBroker.InvKept` | scripts/cloudcom/exchange-worker.py:188-241 | every step of every thread, and every exit of a process, keeps the broker invariant |
| `ExchangeBroker.RunKeepsInv` | scripts/cloudcom/exchange-worker.py:222-241 | the invariant in every state of every interleaving |
| `ExchangeBroker.RunsOnItsOwnDescriptor` | scripts/cloudcom/exchange-worker.py:226-240 | a request that has its worker is alone on it, on a worker of its own tenant started with the descriptor its own validation returned; the mismatch exit is unreachable |
| `ExchangeBroker.OneLiveWorkerPerTenant` | scripts/cloudcom/exchange-worker.py:229-236 | of all workers ever started for a tenant at most one, the one in the pool, has not been killed |
| `ExchangeBroker.TakesALiveWorker` | scripts/cloudcom/exchange-worker.py:230-236 | in every run a lookup takes the pool's worker if and only if its process has not exited at that step, its descriptor is the request's and it is not expired; any other is replaced |
| `ExchangeBroker.NeverTakenAfterItsExit` | scripts/cloudcom/exchange-worker.py:230-236 | no request gets a worker whose process exited before the lookup |
| `ExchangeBroker.OnlyTheHolderKills` | scripts/cloudcom/exchange-worker.py:194-220 | a process is killed only by the thread that holds its lock |
| `ExchangeBroker.InFlightIsLeftAlone` | scripts/cloudcom/exchange-worker.py:232-239 | no step of another thread kills, unlocks or moves a request that has been granted its worker |
| `ExchangeBroker.NoDeadlock` | scripts/cloudcom/exchange-worker.py:229-241 | while any request is unfinished some thread can take its next step |
| `ExchangeBroker.OnlyLocksBlock` | scripts/cloudcom/exchange-worker.py:229-241 | a thread is blocked only by the pool lock or a worker lock |
| `ExchangeBroker.HolderCanGoOn` | scripts/cloudcom/exchange-worker.py:239-241 | a thread that has its worker waits for nothing |
| `ExchangeBroker.ActLowersWork` | scripts/cloudcom/exchange-worker.py:224-241 | every step of a thread lowers the work left |
| `ExchangeBroker.EveryRequestIsAnswered` | scripts/cloudcom/exchange-worker.py:224-241 | in any interleaving, with arrivals and exits, the threads take at most ten steps per request, and where none can go on every request has been answered |
| `ExchangeBroker.Broker.constructor` | scripts/cloudcom/exchange-worker.py:223 | an empty pool, no lock held, the invariant |
| `ExchangeBroker.Broker.Provide` | scripts/cloudcom/exchange-worker.py:229-236 | under the pool lock the whole new state: the tenant's worker is taken if and only if its process has not exited, it has this descriptor and was used within 300 seconds; otherwise it is killed and a new one started, or, when that fails, the request ends; no other tenant's worker changes |
| `ExchangeBroker.Broker.Serve` | scripts/cloudcom/exchange-worker.py:239-241 | run() is reached without the mismatch exit, the worker is killed exactly when run() closes it, and both locks are free again |
| `ExchangeBroker.Broker.Execute` | scripts/cloudcom/exchange-worker.py:224-241 | with no other thread inside a lock the whole request: served by the old worker if and only if its process has not exited and descriptor and age allow it, else by a new one with the old one killed, or failed for want of a process; locks free, other tenants untouched |
| `ExchangePipe.Asked` | scripts/cloudcom/exchange-worker.py:208 | never more than one byte beyond the limit, and at least one byte unless an oversize reply is still buffered, which only a process that outlives its kill can meet |
| `ExchangePipe.ReadsTheReply` | scripts/cloudcom/exchange-worker.py:204-212 | for every chunking a line that is read is this request's reply, with nothing left over, and the oversize exit is taken only for oversize replies |
| `ExchangePipe.VerdictIgnoresChunking` | scripts/cloudcom/exchange-worker.py:204-212 | without timeout or exit the outcome is decided by the size of the reply alone |
| `ExchangePipe.NothingIsLost` | scripts/cloudcom/exchange-worker.py:203-212 | for every chunking and every exit the line, the buffer and the pipe together hold exactly the bytes that were there |
| `ExchangePipe.WhatTheCallerIsTold` | scripts/cloudcom/exchange-worker.py:29-33 | the code for every exit and every verdict, by its name; ten codes pass and any other becomes provider_unreachable |
| `ExchangePipe.PersistentPowerShell.constructor` | scripts/cloudcom/exchange-worker.py:189-193 | a new process is in step |
| `ExchangePipe.PersistentPowerShell.Close` | scripts/cloudcom/exchange-worker.py:194-197 | the kill is sent; the process may still be read and written |
| `ExchangePipe.PersistentPowerShell.Receive` | scripts/cloudcom/exchange-worker.py:203-212 | the read loop ends with the specified outcome and leaves the specified bytes in the buffer and the pipe, however it ends |
| `ExchangePipe.PersistentPowerShell.Run` | scripts/cloudcom/exchange-worker.py:198-220 | on a process that was not closed a reply that arrives whole, below 4 MiB and accepted is the answer, for reads and writes; a refusal gives its code, a foreign line provider_unreachable, an oversize reply response_too_large or, for a write, unknown_write_outcome; the process is left closed or in step; on one that outlives its kill an answer is still a line accepted for this request |
| `ExchangePipe.RepliesStayInStep` | scripts/cloudcom/exchange-worker.py:198-220 | over any number of requests on one process the i-th outcome is decided by the i-th reply |
| `ExchangePipe.SessionGoesOn` | scripts/cloudcom/exchange-worker.py:198-220 | one process serves any number of exchanges that go through, each with what its own reply earns, and none after one that closes it |
| `ExchangePipe.GivenUpWriteIsUnknown` | scripts/cloudcom/exchange-worker.py:202-220 | a write whose process is closed always reports an unknown outcome; a plain unreachable comes from a line that was read |
| `ExchangePipe.Fail` | scripts/cloudcom/exchange-worker.py:29-33 | only listed codes leave the broker |
| `ExchangeService.MoveKeepsInv` | scripts/cloudcom/exchange-worker.py:188-241 | every step of the broker and every exchange over a pipe keeps: a worker that has not been closed has nothing left in its pipe |
| `ExchangeService.RunKeepsInv` | scripts/cloudcom/exchange-worker.py:188-241 | in every state of every interleaving |
| `ExchangeService.AnswersAreItsOwn` | scripts/cloudcom/exchange-worker.py:198-241 | over all interleavings a request is served at most once, by a worker of its own tenant and descriptor; an answer is a line accepted for this request, and its own reply if the worker had not been closed |
| `ExchangeService.AcceptedIsAnswered` | scripts/cloudcom/exchange-worker.py:198-241 | and answers do arrive: on a worker that has not been closed an accepted reply that comes through whole is the answer, and the worker stays open and in step |
| `ExchangeService.AnyExchangeIsPossible` | scripts/cloudcom/exchange-worker.py:198-212 | any reply on an open worker, any bytes on a closed one and a failing write on either are covered |
| `ExchangeService.NobodyIsStuck` | scripts/cloudcom/exchange-worker.py:198-241 | in every reachable state with an unfinished request some request can take its next step, exchanges included |
| `ExchangeService.RunsAreServed` | scripts/cloudcom/exchange-worker.py:239-241 | over every run a request that has its worker leaves it only by being served |
| `ExchangeService.ReadsTheFirst` | scripts/cloudcom/exchange-worker.py:203-212 | for every chunking the line that is read is the first one there, and the rest stays |
| `ExchangeService.StaysOneReplyBehind` | scripts/cloudcom/exchange-worker.py:194-220 | on a worker that outlived its kill with a late reply in its pipe, a request is judged by that reply and leaves its own for the next |
| `RecoveryLock.ParsesBack` | agent/cmd/breeze-backup/recovery_console_cmd.go:119-164 | a complete lock file is parsed to the pid that was written |
| `RecoveryLock.HolderIff` | agent/cmd/breeze-backup/recovery_console_cmd.go:142-164 | a lock file names a holder if and only if it is a decimal number within 64 bits, signed or not, in any white space; anything else names nobody |
| `RecoveryLock.InvKept` | agent/cmd/breeze-backup/recovery_console_cmd.go:63-164 | every step that neither releases the lock nor kills its holder keeps the lock invariant, for any number of processes |
| `RecoveryLock.ExclusiveBeforeFirstEnd` | agent/cmd/breeze-backup/recovery_console_cmd.go:63-164 | until the first release or death of a holder: at most one process is past acquisition, nobody can reclaim, and the lock path shows the complete pid of a live holder |
| `RecoveryLock.GuardEndsIff` | agent/cmd/breeze-backup/recovery_console_cmd.go:72-81 | in any guarded state the guard ends if and only if a reclaim removes the lock of a process that holds it |
| `RecoveryLock.ExclusiveWhileNoReclaimHits` | agent/cmd/breeze-backup/recovery_console_cmd.go:63-164 | exclusion through every run, with any releases and deaths, in which no reclaim hits a held lock |
| `RecoveryLock.StaleLockIsReclaimed` | agent/cmd/breeze-backup/recovery_console_cmd.go:72-81 | from every lock without a live holder a console gets in by its own steps |
| `RecoveryLock.LiveHolderIsLeftAlone` | agent/cmd/breeze-backup/recovery_console_cmd.go:72-94 | whoever finds the lock of a live process sleeps, tries again from the start, and can be cancelled, without touching the lock |
| `RecoveryLock.LosesTheRace` | agent/cmd/breeze-backup/recovery_console_cmd.go:73-81 | a console that removed a lock and was overtaken sleeps and leaves the new lock alone |
| `RecoveryLock.TwoReclaimersBothHold` | agent/cmd/breeze-backup/recovery_console_cmd.go:72-81 | from every such lock two consoles that both inspect it before either removes it both get in |
| `RecoveryLock.ReleaseAloneLetsTwoHold` | agent/cmd/breeze-backup/recovery_console_cmd.go:63-94 | two consoles also get in when nobody died: one reads after a release what it had found taken, and removes the lock of the next holder |
| `RecoveryLock.DeadHolderLeavesStaleLock` | agent/cmd/breeze-backup/recovery_console_cmd.go:72-81 | one console that acquires and dies leads there |
| `RecoveryLock.Acquire` | agent/cmd/breeze-backup/recovery_console_cmd.go:63-95 | in what a turn meets: it acquires in the first turn that links at once, or finds the path taken and no readable live holder and links after removing it; removes the path in exactly the turns of that second kind; fails or gives up in the first turn that says so; and prints once, for the first live holder |
| `ExportTraversal.GetPage` | load-tests/scenarios/partner-api-export.js:158-181 | at least one and at most MAX_RETRIES + 1 requests per page |
| `ExportTraversal.FetchIff` | load-tests/scenarios/partner-api-export.js:158-181 | answers with status 429 or from 500 on are passed over up to MAX_RETRIES times and the next answer decides; only status 200 is a page |
| `ExportTraversal.EnvelopeIff` | load-tests/scenarios/partner-api-export.js:183-206 | the accepted envelopes are exactly the two forms of version 1: with a cursor and more to come, or the last; at most `limit` records and 500 blocked ones |
| `ExportTraversal.IdentifiedIff` | load-tests/scenarios/partner-api-export.js:208-216 | the accepted records are exactly those with both ids and, when blocked, this resource |
| `ExportTraversal.RefusalIs` | load-tests/scenarios/partner-api-export.js:183-267 | which of the problems a refused page is reported for, in terms of the pages before it |
| `ExportTraversal.RefusedRecord` | load-tests/scenarios/partner-api-export.js:208-224 | the first refused record of a page, and why: its key came before, or it has no identity |
| `ExportTraversal.AllIff` | load-tests/scenarios/partner-api-export.js:208-209 | the records that must be unique are the data and the blocked records of all pages |
| `ExportTraversal.FetchPage` | load-tests/scenarios/partner-api-export.js:158-181 | the retry loop is the specified one |
| `ExportTraversal.AssertUniqueRecords` | load-tests/scenarios/partner-api-export.js:208-224 | the loop over the records is the specified one |
| `ExportTraversal.CollectIff` | load-tests/scenarios/partner-api-export.js:208-224 | accepts exactly new, distinct, identified records and remembers exactly their keys |
| `ExportTraversal.TakePage` | load-tests/scenarios/partner-api-export.js:247-267 | the loop body accepts and refuses as specified |
| `ExportTraversal.TraverseResource` | load-tests/scenarios/partner-api-export.js:226-273 | the whole loop is the specified traversal |
| `ExportTraversal.AcceptIff` | load-tests/scenarios/partner-api-export.js:247-267 | a page is accepted if and only if it continues the pages so far: valid, same snapshot, new records, new cursor |
| `ExportTraversal.AcceptTracks` | load-tests/scenarios/partner-api-export.js:249-267 | and the loop variables then describe the longer list of pages |
| `ExportTraversal.SuccessIsAListing` | load-tests/scenarios/partner-api-export.js:226-273 | for every server a normal return means a complete listing: one snapshot, all keys and cursors distinct, counts exact, never late, requests within MAX_PAGES * (MAX_RETRIES + 1) |
| `ExportTraversal.ListingIsReadWhole` | load-tests/scenarios/partner-api-export.js:226-273 | against a server that pages a fixed listing, with transient failures within the retry bound, the traversal succeeds and reads exactly that listing |
| `ExportTraversal.KeyIsSharedIff` | load-tests/scenarios/partner-api-export.js:217 | a record can be taken for a duplicate of a different one if and only if its id or its organisation id contains a NUL |
| `ExportTraversal.NulShiftsTheKey` | load-tests/scenarios/partner-api-export.js:217-221 | with NUL two different records are reported as a duplicate |
| `Utf8Length.ByteLength` | load-tests/scenarios/partner-api-export.js:124-139 | the count is the length of the UTF-8 encoding of the string, unpaired surrogates as U+FFFD, for every sequence of code units |
| `Utf8Length.ScalarsOfUtf16` | load-tests/scenarios/partner-api-export.js:124-139 | the reference reads every well-formed UTF-16 text back |
| `Utf8Length.EncodesScalar` | load-tests/scenarios/partner-api-export.js:124-139 | the reference encoding of a scalar is one character of RFC 3629 and decodes to that scalar |
| `Utf8Length.EncodedIsValid` | load-tests/scenarios/partner-api-export.js:124-139 | the reference encoding of a text is valid UTF-8 |
| `RtpClock.SignedDelta` | e2e-tests/perf-harness/summarize.ts:71-77 | the delta is within half the range in either direction |
| `RtpClock.DeltaIsCongruent` | e2e-tests/perf-harness/summarize.ts:71-77 | and differs from the plain difference by whole turns |
| `RtpClock.DeltaIsExactIff` | e2e-tests/perf-harness/summarize.ts:71-77 | it is the true clock step if and only if that step is shorter than half the range, or exactly half with the earlier timestamp in the matching half |
| `RtpClock.ElapsedIsCongruent` | e2e-tests/perf-harness/summarize.ts:90-99 | for every series of frames the total is congruent to last minus first |
| `RtpClock.ElapsedIsTrue` | e2e-tests/perf-harness/summarize.ts:90-99 | and is the true elapsed time over any number of wraps and reorderings if each step is shorter than half the range |
| `RtpClock.MediaClockMetrics` | e2e-tests/perf-harness/summarize.ts:78-106 | the accumulating loop computes the specified drift and pacing errors |
| `RtpClock.DriftIsWallMinusMedia` | e2e-tests/perf-harness/summarize.ts:100-102 | the drift is wall time minus true media time |
| `RtpClock.PacingOfOrderedFrames` | e2e-tests/perf-harness/summarize.ts:94-98 | frames in media order contribute every pair to the pacing errors, in order |
| `RtpClock.PacingSkipsReordered` | e2e-tests/perf-harness/summarize.ts:90-99 | for every series that carries a true clock the pacing errors are the true wall-minus-media differences of exactly the neighbours in media order |
| `FailoverUrl.Watchdog.constructor` | agent/cmd/breeze-watchdog/main.go:880-890 | a failover starts on the disk URL with no failures |
| `FailoverUrl.Watchdog.NoteFailure` | agent/cmd/breeze-watchdog/main.go:88-102 | the client is retargeted as decided and the disk URL is returned; an unreadable file changes nothing |
| `FailoverUrl.Watchdog.Poll` | agent/cmd/breeze-watchdog/main.go:1048-1062 | a poll resets the failure count or counts one more and follows the decision |
| `FailoverUrl.TogglesEveryTen` | agent/cmd/breeze-watchdog/main.go:58-102 | with a fixed configuration the target toggles once for every multiple of ten the failure count passes, and is always one of the two URLs |
| `FailoverUrl.TogglesFromStart` | agent/cmd/breeze-watchdog/main.go:58-102 | exactly floor(n / 10) toggles after n failures |
| `FailoverUrl.ErrorsChangeNothing` | agent/cmd/breeze-watchdog/main.go:88-95 | unreadable configurations change neither target nor anchor |
| `FailoverUrl.SwapIsFollowed` | agent/cmd/breeze-watchdog/main.go:70-73 | a URL newly on disk is adopted at the first readable failure, with or without a backup, and the alternation with another backup goes on from it |
| `FailoverUrl.TargetIsKnown` | agent/cmd/breeze-watchdog/main.go:70-102 | over any history of files the target is the first URL or a non-empty one that some file named |
| `FailoverUrl.LeavesTheBackupIff` | agent/cmd/breeze-watchdog/main.go:70-102 | after any history of files a client on the backup between probes returns to the disk URL if and only if the last readable file named another URL or none |
| `FailoverUrl.AnchorSurvivesIff` | agent/cmd/breeze-watchdog/main.go:70-102 | one file in between decides it: the client stays on the backup if and only if that file names the same disk URL |
| `FailoverUrl.EmptyUrlLosesTheAnchor` | agent/cmd/breeze-watchdog/main.go:96-101 | in particular a file without server_url makes the same URL count as a swap later |

## Left out

- ResultEviction.NotesSurviveIff: field names are valid UTF-8, as json.Unmarshal makes them, and free of the note
  label.
- ResultSent.SentTextKeptIff: on the same assumption.
- ResultSent.TextAfterTierIff: on the same assumption.
- ResultMeaning.SummaryKept: nothing is said about tiers after 3, where only status fields are kept; `StatusSurvives`
  and `SnapshotIdSurvives` say what tier 4 keeps.
- ResultMeaning.StatusSurvives: for texts of at most 1024 bytes of valid UTF-8; longer ones are clipped, which
  `RecoverStrings` states.
- ResultWire.NamedStringsSurvive: on the same texts.
- ResultWire.SnapshotIsNamed: on the same texts, not empty.
- ExecutionQueue.EveryTicketCloses: under fairness, which includes that every running job returns; the engines
  themselves are not modelled.
- CommandCanceller.QueuedCommandsStayCancellable: a command is admitted to the queue while no other command tracks its
  id, so that its ticket owns the run; `CancelReachesContextIff` has no such assumption.
- RecoveryLock.ExclusiveBeforeFirstEnd: up to the first release or death of a holder, because the code does not
  guarantee exclusion afterwards; `GuardEndsIff` says what ends it.
- ExchangeBroker.Broker.Provide: with the pool lock held and no other thread inside the lock of the tenant's worker.
- ExchangeBroker.Broker.Execute: one request with no other thread inside a lock; the interleavings are those of
  `InvKept` and `EveryRequestIsAnswered`.
- Json.EncodeObject: copies raw messages as they are; Go also drops white space outside strings and writes `<`, `>`,
  `&`, U+2028 and U+2029 in them as escapes, so sizes of tiers 2 and 3 are those of values without these.
- RtpClock.ElapsedIsTrue: for steps shorter than half the range; `DeltaIsExactIff` gives the exact condition for one
  step.
- ExportTraversal.ListingIsReadWhole: for a server whose failures in a row stay within the retry bound and a client
  that is never late.
- JSON parsing and Go's case-insensitive matching of struct keys: a body is given as its fields, each with its encoded
  form.
- Number formats inside raw JSON values.
- The percentile and the other summaries of the performance harness, and floating-point rounding.
- The Exchange request and response validators: long flat checks, one abstract verdict here.
- The watchdog's main loop, standby policy and recovery ladder, whose transition tables are not part of this model.
- Backup, restore, VSS, SQL and Hyper-V engines, IPC framing and authentication, configuration loading.
- Metrics, logging and journal entries beyond the notes and messages named above.
- k6 scenarios other than the export traversal, end-to-end page objects, build and deployment scripts.
