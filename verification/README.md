# Verified models of workgate's durable cores

Six parts of workgate are modelled here, with the properties they are built for proved for all inputs,
all runs or all reachable states. `dafny verify dfyconfig.toml` checks everything.

| part | files |
|---|---|
| durable job store and its journal | `JobState`, `Retention`, `Journal`, `JournalRuns`, `JournalTheorems`, `JournalNames`, `UpdateHistory`, `Recovery`, `RecoveryRuns`, `RunnerLog` |
| shell jobs: start, stop, retry, reconcile | `Reconciliation`, `ShellJobs`, `ShellOutcomes`, `ShellRuns`, `ShellTheorems`, `ShellOperations`, `ShellNaming` |
| terminal wrapping | `TerminalWrap`, `TerminalColours`, `TerminalRows`, `JsNumber`, `JsPrinting` |
| audit log retention, payload quota, coalescing | `AuditLog`, `AuditRetention`, `AuditPayloads`, `AuditSweep`, `AuditCoalesce`, `AuditRows` |
| hashline edits | `HashlineText`, `HashlineEdit`, `HashlineApply`, `HashlineRefusals`, `HashlineParse`, `HashlineGrammar`, `HashlineSections`, `HashlineRoundTrip` |
| stdio workers of the agent bridge | `WorkerRegistry`, `WorkerCalls`, `WorkerProgress`, `WorkerClose`, `CloseHandshake` |

`Common` holds a stable sort and `Decimal` the decimal text of numbers.

## How each part is modelled

**The job store.** A store is two files written one after the other, plus a journal directory. `Recovery` is the
imperative form: one object whose methods are the steps of `store_transaction` and `_managed_store_update`.
`JournalRuns` is the same store as a state machine shared by any number of processes, each with its own sequence
counter: begin-and-replay, body edits, the primary write, the backup write, each unlink (which may fail), deferring an
update, a crash of one process, and damage to the primary. `RecoveryRuns` shows that every update of the object,
whatever fails in it, is a run of the machine. A row's *trace* is the history of changes its content shows; *pending*
events are journaled updates its applied list does not show yet. The theorems compare both with the list of updates
the handler completed, and `UpdateHistory` says what such a list shows in each field of the row.

**Shell jobs.** `ShellJobs` has each transaction body twice: as a function of the row, and as a method that changes a
row object field by field. `ShellRuns` interleaves these bodies with launches, kills, runner completions, shell
deaths, failed transactions (before or after their primary write), cancellation, crashes and pruning, for one job
under one controller. `ShellOutcomes` follows each operation from staging to commit, and `ShellOperations` gives the
steps of whole operations and the worlds they leave. What other processes may do to the row between staging and
commit, pruning it included, is the subject of `ShellTheorems.GuardedCommit`, and what then becomes of a launched
shell that of `ShellTheorems.InterferedLaunch`.

**Terminal wrapping.** A line is a sequence of tokens: SGR escapes, other control sequences, graphemes with a width,
lone escape characters. Its meaning is every shown item with its rendition, and a rendition is the list of SGR
commands since the last reset (ECMA-48, section 8.3.117), so equal renditions look equal on any terminal.
`TerminalColours` writes out how parameters are read. `JsNumber` rounds whole numbers to doubles and prints them as
JavaScript does (ECMA-262, section 6.1.6.1.20).

**Audit.** The log is a sequence of lines with a size, a call id and a decoded value. Files are rewritten and payload
files unlinked in methods; the budgets, the pairing and the coalescing are proved against definitions that look only
at positions in the log. `AuditSweep` says which payloads a pass keeps by ages and by what the log's records mention,
and `AuditRows` what a row shows, both without the notions the algorithms use.

**Hashline edits.** Text is split at newlines only. Preparation, the overlap check, the splices, the report and the
parser are modelled, with the snapshot check and the size limit; the reference meaning of a multi-hunk edit is a
simultaneous substitution on line texts. `HashlineRoundTrip` joins them: edits written from copied rows as one text,
parsed and applied, do exactly that.

**Stdio workers.** Two state machines: the registry of workers under per-name lifecycle locks, with any number of
threads, with `WorkerCalls` for what whole calls do; and the close handshake between requesting threads, the worker
thread and its event loop.

## Assumptions

- A shell start is atomic, uses the requested name and leaves no shell when it raises. Killed and dead shells stay
  dead. An inventory is authoritative or absent.
- Attempt paths are a function of job and attempt. `ShellRuns` also gives every attempt its own shell name;
  `ShellNaming` shows when that is so.
- Operations on one session are serialized by its lifecycle lock. File replacement is atomic; locks are exclusive.
- A handler issues one update at a time; job ids and journal name suffixes are never reused.
- Exactly-once and the conservation of journaled bytes have no further condition. The theorems that count direct
  updates hold while the primary file was never damaged (`intact`). `OrderedRefinement` and `FirstFinishDecides` also
  ask that no journal file of the job was unreadable, or was named before an older one (not `disordered`);
  `OneOwnerKeepsOrder` shows that one owner process, restarts included, never does the second below number 10^20.
- A snapshot keeps a digest of the file; different contents have different digests, so the model compares contents.
- An update is issued when its primary write or its journal file lands; a retried update whose write had landed is issued
  again.
- Times are whole ticks, and zero stands for a missing time as in the source's `or` defaults.
- Escapes that end in `m` with a private prefix, which terminals do not take as SGR, are given the meaning of plain SGR, as
  the source treats them; captured output holds only plain ones.
- After a retention sweep starts, file sizes stay the same and unlinks succeed.
- Start-up of a worker that is cancelled ends, and an operation that holds the operation lock ends.

## What turned out not to hold

- **A refresh is not always a fixed point.** A retry whose pending shell is live although its pending status path was
  never stored, while the previous attempt left a completion record, is decided differently by a second refresh.
  `RefreshFixedPoint` gives the exact condition; `RefreshSettlesInRuns` shows the protocol never produces such a row.
- **A replayed update may take effect again.** A log record whose byte count converts and whose time does not raises
  after the bytes are counted; a finish that leaves the job active, has no completion time and a result that does not
  fit raises after its changes and stamps a later time when replayed. `SecondReplayChangesNothing` gives the exact
  condition for two replays at any two times; the runtime writes neither record.
- **A retried update can be counted twice.** A write that fails with a timeout error is taken for a busy lock, and the
  update is tried again or journaled although the primary may have been replaced already. `CountedOnceWhen` gives the exact
  condition and `TimedOutBackupCountsTwice` the case.
- **Wrapping can show stray text.** A parameter with a colon after a reset in the same escape is read as not a number,
  and one of 10^21 or more prints in exponent form; either ends the control sequence when it is re-emitted at the next
  row break. A number from 2^53 on may also be re-emitted rounded. `WrappingPreservesMeaning` is an equivalence with
  the absence of a break where a rebuilt parameter does not print as itself; `OrdinaryNumbersPreserveMeaning` covers
  every escape with numbers below 2^53 after its last reset; `ColonColourSpills` and `ExponentSpills` are examples.
- **Shell names of long-named jobs can coincide.** Names are cut to 48 characters after the attempt number is
  appended. `NamesCollideExactlyWhenCut` and `FirstNameCollidesExactlyWhenCut` give the exact conditions.
- **Name order is not always issue order.** From sequence number 10^20 on a journal name is longer than its padding.
  `NameOrderIs` says exactly which pairs of names still compare as their numbers; 10^20 itself sorts before 10^20 - 1
  (`NameOrderBreaksPastTheWidth`).

## Model

| member | source | states |
|---|---|---|
| JobState.WellFormedUpdatesAreDeterministic | src/workgate/jobs/recovery.py:203-246 | An update of the shape the runtime writes never raises, gives the same row whenever it is replayed, and neither reads nor writes the applied list |
| JobState.FindSessionJob | src/workgate/jobs/state.py:243-253 | The first row with the session and job id, or the end when no row has them |
| Retention.RetentionIsExact | src/workgate/jobs/persistence.py:161-182 | Rows that are not retention-terminal all stay, in store order; exactly min(total, max(limit, those)) rows stay; no dropped row is newer than a kept finished one |
| Retention.NewestAreKept | src/workgate/jobs/persistence.py:153-178 | Against every row that goes, which is history, a kept row of history was updated later, or at the same time and stands before it; history is a confirmed outcome, a lost managed job, or a lost shell job whose absence is proved |
| Retention.NewestFirstOrder | src/workgate/jobs/persistence.py:168-178 | The eviction order lists each finished row exactly once, by falling recency |
| Retention.PruneIsIdempotent | src/workgate/jobs/persistence.py:161-182 | Pruning a pruned store changes nothing |
| Retention.PruneKeepsRows | src/workgate/jobs/persistence.py:161-182 | Pruning invents no row and keeps keys distinct |
| Journal.SecondReplayChangesNothing | src/workgate/jobs/recovery.py:203-301 | A surviving journal file replayed again, at any later time, changes no content if and only if its record is not a log append with counted bytes and an unusable time, and not a finish that raises late, keeps the job active and is stamped anew |
| Journal.NextFree | src/workgate/jobs/recovery.py:70-78 | The next sequence number is one past the largest in use |
| Journal.TrimmedIds | src/workgate/jobs/recovery.py:253-264 | After trimming, a row lists exactly those of its ids that still have a file, and is otherwise the same |
| Journal.TrimmedInOrder | src/workgate/jobs/recovery.py:253-264 | The ids that stay keep their order |
| JournalNames.NameOrderIs | src/workgate/jobs/recovery.py:90-94 | For any two sequence numbers, the smaller one's file name sorts first if and only if the larger number has no more digits than the padded smaller one, or its leading digits are not below the smaller number |
| JournalNames.NameOrderIsSequenceOrder | src/workgate/jobs/recovery.py:90-94 | Below 10^20 file names compare as their sequence numbers do, whatever follows |
| JournalNames.SortedListingIsTheJournal | src/workgate/jobs/recovery.py:181 | However the directory is enumerated, its sorted listing is the journal in name order |
| JournalNames.InsertionKeepsNameOrder | src/workgate/jobs/recovery.py:83-122 | A new file put in its place by name keeps the sorted listing sorted |
| JournalNames.SequenceReadBack | src/workgate/jobs/recovery.py:73-77 | A restarted process reads from a file name the sequence number it was given |
| JournalNames.NameOrderBreaksPastTheWidth | src/workgate/jobs/recovery.py:90-94 | The file numbered 10^20 sorts before the one numbered 10^20 - 1 |
| Recovery.JobStoreFiles.NextDeferredSequence | src/workgate/jobs/recovery.py:65-80 | The first call continues past every file left behind; later calls count on from it |
| Recovery.JobStoreFiles.WriteDeferred | src/workgate/jobs/recovery.py:83-122 | One file is added in its place by name under a fresh sequence number and nothing else in the journal changes; a record over the size limit is refused, and only its number is used up |
| Recovery.JournalAfterRestart | src/workgate/jobs/recovery.py:52-122 | A process started on the files another one left numbers its first journaled update above all of them and, below 10^20, lists it behind them all |
| Recovery.JobStoreFiles.ReconcileDeferred | src/workgate/jobs/recovery.py:249-301 | Applied lists keep exactly the ids that still have files; each file is replayed once, in order; what may be removed is every file that could be opened |
| Recovery.JobStoreFiles.SaveStore | src/workgate/jobs/persistence.py:185-192 | The primary is replaced before the backup, each by the whole pruned store, as far as the writes succeed |
| Recovery.JobStoreFiles.RemoveDeferred | src/workgate/jobs/recovery.py:304-308 | Exactly the queued files the file system lets go are gone |
| Recovery.RemovedLeavesStuck | src/workgate/jobs/recovery.py:304-308 | What is left is what was never queued and what refused removal |
| Recovery.JobStoreFiles.UpdateTransaction | src/workgate/jobs/recovery.py:325-352 | A committed update writes both files after the replay and only then removes files; one that raises in its body leaves everything as it was; a failed write leaves what was written before it and the whole journal |
| Recovery.JobStoreFiles.ManagedStoreUpdate | src/workgate/jobs/managed.py:264-293 | The direct attempts, each a wait that times out or a transaction, and the deferral when all time out: the method leaves exactly what `StoreUpdate` says of files, journal and counter |
| Recovery.FirstAttemptDecides | src/workgate/jobs/managed.py:264-293 | Unless a write is reported as a timeout, the first attempt that gets the lock decides, on the files as they were; and the update goes to the journal if and only if no attempt gets it |
| Recovery.LeftInPlace | src/workgate/jobs/recovery.py:304-352 | After a committed transaction exactly the files that could not be opened or not be unlinked are left; any other transaction leaves the journal as it was |
| Recovery.StoredRowsListFiles | src/workgate/jobs/recovery.py:249-301 | What a committed transaction stores lists only updates whose files it found, so applied lists never outgrow the journal |
| Recovery.BytesPerLandedWrite | src/workgate/jobs/managed.py:264-293 | A log append counts its bytes once for every attempt that wrote the primary, whatever the attempts and the other jobs' journal files |
| Recovery.CountedOnceWhen | src/workgate/jobs/managed.py:264-293 | An append that ends committed is counted exactly once, and one that ends journaled only waits, if and only if no attempt wrote the primary and then timed out on the backup |
| Recovery.TimedOutBackupCountsTwice | src/workgate/jobs/managed.py:264-293 | The failing case: a first attempt that writes the primary and times out on the backup, and a second that commits, count the bytes twice |
| RecoveryRuns.TransactionIsARun | src/workgate/jobs/recovery.py:325-352 | Every transaction around an update, loading or not, ending its body or not, failing at any write or unlink, is a run of the state machine that ends with the same files |
| RecoveryRuns.UnlinksAreARun | src/workgate/jobs/recovery.py:304-308 | Its unlinks are unlink steps of the machine, those of stuck files failing, and leave the same journal |
| RecoveryRuns.DeferralIsAStep | src/workgate/jobs/recovery.py:65-122 | A deferral is the machine's step: same number, same place in the journal, same counter |
| RecoveryRuns.StoreUpdateIsARun | src/workgate/jobs/managed.py:264-293 | The whole of a managed store update, for any attempts and failures, is a run of the machine that ends with the same files, journal and counter |
| JournalRuns.SafeStep | src/workgate/jobs/recovery.py:249-352 | Every step of every transaction, deferral and crash keeps each copy's rows equal to the fold of their traces, with every journaled update played and listed, or waiting in a file, never both |
| JournalRuns.WholeStep | src/workgate/jobs/recovery.py:249-352 | While the primary was never damaged, every step keeps the direct updates a row shows equal to those issued |
| JournalRuns.OrderlyStep | src/workgate/jobs/recovery.py:249-352 | While the primary was never damaged and no file of a job was unreadable or out of order, every step keeps the job's played-then-waiting updates in issue order |
| JournalTheorems.RunsKeepTheInvariant | src/workgate/jobs/recovery.py:249-352 | All three invariants hold in every state of every run |
| JournalTheorems.ReplayPlaysPending | src/workgate/jobs/recovery.py:266-300 | Replaying the journal into a row plays exactly its waiting updates, in name order |
| JournalTheorems.JournaledUpdatesTakeEffectOnce | src/workgate/jobs/recovery.py:249-352 | In every state of every run of any number of processes and in either store file, each update journaled for a row is played or waiting, exactly once, and nothing else journaled is |
| JournalTheorems.JournaledAsIssued | src/workgate/jobs/recovery.py:249-352 | In either store file, with no condition, the journaled updates played or waiting are those issued, as multisets |
| JournalTheorems.EveryUpdateTakesEffectOnce | src/workgate/jobs/recovery.py:249-352 | While the primary was never damaged, every completed update, direct or deferred, is played in the primary row or waits in a file, exactly once, whatever could be read |
| JournalTheorems.RemovedFilesAreInBothStores | src/workgate/jobs/recovery.py:348-352 | Once an update's file is gone, every store file that has its row shows it |
| JournalTheorems.OneOwnerKeepsOrder | src/workgate/jobs/recovery.py:65-122 | Below number 10^20, a job whose updates come from one process at a time, restarts allowed, never gets a file named before an older one, whatever other processes journal; with its files readable it is never disordered |
| JournalTheorems.ListingsAreSorted | src/workgate/jobs/recovery.py:173-200 | In every run the journal is a listing sorted by file name |
| JournalTheorems.OrderedRefinement | src/workgate/jobs/recovery.py:203-301 | While the primary was never damaged and the job's files were read and in order, the primary row with its waiting files replayed is the row's first value with the handler's updates played in issue order, whichever were direct and whichever deferred; edits of other transactions come in between and, where they leave this row alone, do not matter |
| JournalTheorems.SparingEditsDropOut | src/workgate/jobs/recovery.py:203-246 | Edits that leave a row alone drop out of its history |
| JournalTheorems.OutcomeSettled | src/workgate/jobs/recovery.py:215-240 | No sequence of managed updates changes the outcome of a row that is not active |
| JournalTheorems.FirstFinishWins | src/workgate/jobs/recovery.py:223-240 | The first finish played on an active row decides status, completion time, exit code, error and result for good, ends the operation, and freezes the progress shown |
| JournalTheorems.FirstFinishDecides | src/workgate/jobs/recovery.py:223-240 | While other transactions keep the row's outcome fields, the replayed primary row shows the status, completion time, exit code, error, result and operation the handler's first finish gave |
| UpdateHistory.FoldShowsHistory | src/workgate/jobs/recovery.py:203-246 | After any history of well-formed updates: the progress is the text of the last progress update before the first finish, the time that of the last update that took effect, the outcome that of the first finish, the log cut if any append says so, the bytes their sum, and everything else as it was |
| UpdateHistory.ReplayedRowShowsHistory | src/workgate/jobs/recovery.py:203-301 | In every run, while other transactions leave the row alone, the replayed primary row shows the issued updates field by field in this way |
| UpdateHistory.ReplayedRowShowsProgress | src/workgate/jobs/recovery.py:216-222 | With edits that only keep its outcome fields, the replayed row still shows the progress of the updates issued |
| UpdateHistory.LogBytesIsTheSum | src/workgate/jobs/recovery.py:208-211 | The bytes of a history are the sum of its appended counts |
| UpdateHistory.RuntimeWrites | src/workgate/jobs/managed.py:296-333 | The updates the runtime writes are well-formed |
| UpdateHistory.RaisesWhen | src/workgate/jobs/recovery.py:203-246 | An update raises if and only if a field it comes to does not convert or an object does not fit, which for progress and finish needs an active row |
| UpdateHistory.AppendLeaves | src/workgate/jobs/recovery.py:208-215 | Any append, raising or not, adds only positive counts, and replaces the time only by one that can be used |
| JournalTheorems.FoldCountsBytes | src/workgate/jobs/recovery.py:208-213 | Any history of a row grows its byte count by the sum of its log appends, as long as the edits in it leave this row's counter alone |
| JournalTheorems.JournaledBytesAreConserved | src/workgate/jobs/recovery.py:203-301 | In every state of every run and in either store file, the journaled bytes a row counts plus those waiting equal the journaled bytes issued |
| JournalTheorems.LogBytesAreConserved | src/workgate/jobs/recovery.py:203-301 | While the primary was never damaged, its row's byte count plus the bytes waiting in journal files equals the bytes issued, whatever could be read and whatever other transactions do to other jobs' counters, as long as none changes this row's |
| Reconciliation.RefreshFixedPoint | src/workgate/jobs/lifecycle.py:180-251 | In a fixed environment refreshing twice equals refreshing once if and only if the row does not adopt a live retry shell without its stored path |
| Reconciliation.UnknownChangesNothing | src/workgate/jobs/reconciliation.py:101-275 | With no authoritative inventory and no completion record a shell row does not change |
| Reconciliation.RefreshTakesTheTokenOrNothing | src/workgate/jobs/reconciliation.py:101-275 | A refresh leaves a staged row exactly alone or takes its operation token away |
| Reconciliation.RefreshKeepsIdentity | src/workgate/jobs/lifecycle.py:149-158 | A refresh never changes key, kind, creation time or applied list, and never creates a token |
| Reconciliation.RefreshEndsExactlyOnEvidence | src/workgate/jobs/reconciliation.py:101-275 | A refresh ends an active row if and only if: for a shell job, this process has no operation on it, and there is a completion record or an authoritative absence; for a managed job, no operation or local task has it and its lease is known to be gone |
| Reconciliation.NoSuccessWithoutEvidence | src/workgate/jobs/reconciliation.py:54-98 | A refresh shows success only where a completion record with exit code zero stands at the attempt's own status path |
| Reconciliation.RecordDecides | src/workgate/jobs/reconciliation.py:54-98 | A completion record decides: success exactly with exit code zero, its fields shown, the operation over, a retry's attempt adopted |
| Reconciliation.AbsenceDecides | src/workgate/jobs/reconciliation.py:101-275 | With the shell authoritatively absent and no record, an interrupted start or retry failed, a stop succeeded, and a running job is lost with its absence confirmed |
| Reconciliation.PresenceDecides | src/workgate/jobs/reconciliation.py:101-275 | With the shell listed and no record, starts, retries, interrupted stops and lost jobs run, and a running job is left alone |
| Reconciliation.NothingDecides | src/workgate/jobs/reconciliation.py:101-275 | With nothing known, with this process at work, or with a settled status, nothing changes |
| Reconciliation.DeadLeaseDecides | src/workgate/jobs/reconciliation.py:131-152 | A managed row changes if and only if its lease is gone and nobody here works on it: a stop is done, anything else is lost |
| ShellJobs.StartUndisturbed | src/workgate/jobs/shell.py:128-225 | A start nobody interferes with publishes its row under a token and ends as attempt one running, with no operation left on the row |
| ShellJobs.TrackedJob.ClearOperation | src/workgate/jobs/state.py:189-195 | The token is dropped and nothing else changes |
| ShellJobs.TrackedJob.AdoptPendingRetry | src/workgate/jobs/lifecycle.py:134-146 | Each pending field that is set replaces its active field; the others stay |
| ShellJobs.TrackedJob.ClearPendingRetry | src/workgate/jobs/lifecycle.py:123-131 | All five pending fields go and nothing else changes |
| ShellJobs.TrackedJob.Transit | src/workgate/jobs/lifecycle.py:149-158 | One decision applied in place, removals before updates |
| ShellJobs.TrackedJob.RefreshStatus | src/workgate/jobs/lifecycle.py:180-251 | The row becomes what reconciliation decides from just the observations its kind and status call for |
| ShellJobs.TrackedJob.CommitStart | src/workgate/jobs/shell.py:200-225 | The row runs under the launched shell if it is still as staged; otherwise it is untouched and the change is reported |
| ShellJobs.TrackedJob.StageStop | src/workgate/jobs/shell.py:318-352 | Refreshed first; a lost shell counts as stopped only with proof of absence; only a running row is staged |
| ShellJobs.TrackedJob.CommitStop | src/workgate/jobs/shell.py:384-420 | Stopped exactly when the shell is gone, running again otherwise, and untouched if it is no longer as staged |
| ShellJobs.TrackedJob.FailStop | src/workgate/jobs/shell.py:355-382 | After a kill that raised, the row stops exactly when an authoritative inventory no longer lists the shell, and keeps the error either way |
| ShellJobs.TrackedJob.FailTail | src/workgate/jobs/runtime.py:241-275 | An unreadable running shell is lost, with its absence proved, exactly when the inventory does not list it; any other row is untouched |
| ShellJobs.TrackedJob.StageRetry | src/workgate/jobs/shell.py:444-472 | The next attempt number and shell name are recorded before anything is launched; an active job is refused with nothing saved |
| ShellJobs.TrackedJob.RefuseRetry | src/workgate/jobs/shell.py:497-522 | A refused retry keeps its attempt number, so the number is never used again |
| ShellJobs.TrackedJob.CommitRetry | src/workgate/jobs/shell.py:523-565 | The pending attempt becomes the running one if the row is still as staged; otherwise it is untouched and the change is reported |
| ShellOutcomes.StartOutcome | src/workgate/jobs/shell.py:128-225 | A published start names attempt one and its files; refused it has failed, committed it runs, and nothing else changes |
| ShellOutcomes.AnyStartCommits | src/workgate/jobs/shell.py:178-225 | On any staged row the commit makes it run under the launched shell without an error, and a refusal fails it with the error |
| ShellOutcomes.StopProceedsWhen | src/workgate/jobs/shell.py:318-352 | A stop goes ahead if and only if no record is there, no operation of this process, and the shell is listed or, for a running job, not known to be gone |
| ShellOutcomes.StopOutcome | src/workgate/jobs/shell.py:318-420 | A staged stop ends stopped when the shell is gone and running with an error otherwise, after a kill that raised too, and nothing else changes |
| ShellOutcomes.StopOfAGoneShell | src/workgate/jobs/shell.py:318-345 | A running or lost job whose shell is authoritatively absent is stopped there and then |
| ShellOutcomes.StopsInRuns | src/workgate/jobs/shell.py:318-420 | In every run a successful kill, or an inventory without the shell, makes the commit show the job stopped with its attempt dead; otherwise it runs on |
| ShellOutcomes.RetryOutcome | src/workgate/jobs/shell.py:444-566 | A retry takes the next attempt number with its own name and files, and its commit runs it with nothing left of the earlier outcome |
| ShellOutcomes.RefusedRetryOutcome | src/workgate/jobs/shell.py:497-522 | A refused retry uses up its number, keeps the last attempt's name and files, and the next retry takes a further number |
| ShellOutcomes.TailOutcome | src/workgate/jobs/runtime.py:241-275 | A failed read shows its error; only a shell the inventory lacks makes the job lost, and then prunable |
| ShellRuns.RefreshOk | src/workgate/jobs/reconciliation.py:101-275 | A refresh keeps a row of a run coherent: its status, attempt fields and pending fields agree, and a going attempt stays named by an active row |
| ShellRuns.RefreshedStaysActive | src/workgate/jobs/reconciliation.py:101-275 | A refresh never ends a row whose current attempt is still going |
| ShellRuns.GoodBeginStart | src/workgate/jobs/shell.py:128-186 | Publishing the starting row, attempt one under the start token, and launching its shell keep the protocol invariant |
| ShellRuns.GoodStep | src/workgate/jobs/shell.py:112-575 | Every step of every operation, crash and shell death keeps the protocol invariant |
| ShellTheorems.RunsAreGood | src/workgate/jobs/shell.py:112-575 | The invariant holds in every state of every run |
| ShellTheorems.NoOrphanedAttempt | src/workgate/jobs/shell.py:112-575 | An attempt whose runner is going is always named by its job's row while that row is active, so pruning cannot lose it |
| ShellTheorems.LaunchesUseFreshNumbers | src/workgate/jobs/shell.py:448-495 | Every launch uses an attempt number above all earlier ones |
| ShellTheorems.AttemptNumberNeverDrops | src/workgate/jobs/shell.py:448-565 | The attempt number a row stands for never goes down |
| ShellTheorems.CompletionBelongsToTheRow | src/workgate/jobs/reconciliation.py:54-98 | When a refresh reads a completion record, that record was written by the attempt the refreshed row carries, and the row shows its outcome |
| ShellTheorems.SuccessIsEvident | src/workgate/jobs/reconciliation.py:54-98 | In every state of every run, a row that shows success stands beside the record its own attempt's runner wrote, with exit code zero |
| ShellTheorems.RefreshSettlesInRuns | src/workgate/jobs/lifecycle.py:180-251 | In every reachable state one refresh reaches its fixed point |
| ShellTheorems.CommitsFindTheirRow | src/workgate/jobs/shell.py:200-234 | With one controller every commit finds the row it staged |
| ShellTheorems.StagedRowUnderActions | src/workgate/jobs/state.py:159-195 | Whatever other processes do, pruning included, a staged row stays exactly as it is or its token is gone for good |
| ShellTheorems.TokenStaysGone | src/workgate/jobs/state.py:159-195 | A token once gone never comes back |
| ShellTheorems.GuardedCommit | src/workgate/jobs/shell.py:200-566 | Between staging and commit other processes may change or drop the row at will: the commit meets exactly the row it staged, or no row, or neither the commit nor any error path of the operation changes anything |
| ShellTheorems.ChangedCommitIsUndone | src/workgate/jobs/shell.py:200-235 | A commit that finds its row changed or gone leaves it as it is and leads to the undo step |
| ShellTheorems.InterferedLaunch | src/workgate/jobs/shell.py:523-566 | In any state of a run with a launched shell, after any interference: the commit records the launched attempt as running, or it leaves the row as the others left it and, once the kill succeeds, the launched attempt is gone and the operation over |
| ShellOperations.WholeStart | src/workgate/jobs/shell.py:112-225 | A start that nothing interrupts publishes its row, launches one shell and leaves attempt one running |
| ShellOperations.RefusedStart | src/workgate/jobs/shell.py:160-198 | A start whose launch raises leaves a failed job and no shell |
| ShellOperations.UndoneStart | src/workgate/jobs/shell.py:202-234 | A commit that raises is followed by the kill of the launched shell and the removal of its record |
| ShellOperations.WholeStop | src/workgate/jobs/shell.py:303-430 | A stop of a running job leaves its shell dead, the job stopped and no token |
| ShellOperations.StopEnds | src/workgate/jobs/shell.py:355-430 | Without a kill the job runs on, with the error shown |
| ShellOperations.WholeRetry | src/workgate/jobs/shell.py:433-575 | A retry of an ended job launches attempt n + 1 once, runs it, and leaves no record and nothing of attempt n |
| ShellOperations.RetryGivesUp | src/workgate/jobs/shell.py:489-522 | A retry whose launch raises fails, with its number used up |
| ShellOperations.WholeRefresh | src/workgate/jobs/lifecycle.py:180-251 | A refresh saves the row reconciliation decides and nothing else |
| ShellOperations.UnreadTail | src/workgate/jobs/runtime.py:241-275 | A tail that cannot read goes on with the inventory it was given |
| ShellOperations.EndedRunIsShown | src/workgate/jobs/reconciliation.py:54-98 | When a runner ends, it writes its record at its attempt's own status path, and the next refresh shows success exactly with exit code zero |
| ShellOperations.OtherSteps | src/workgate/jobs/persistence.py:161-182 | Pruning drops the row and its records; a publication that is not saved uses up its token and nothing else |
| ShellNaming.NamesCollideExactlyWhenCut | src/workgate/jobs/lifecycle.py:49-52 | Two attempts get one shell name if and only if their names agree on the first 48 characters |
| ShellNaming.NamesDistinctWhenTheyFit | src/workgate/jobs/lifecycle.py:49-52 | Names that fit are distinct; with no room for the number they are all the same |
| ShellNaming.FirstNameCollidesExactlyWhenCut | src/workgate/jobs/shell.py:121-123 | The first attempt, named without a number, shares its shell name with a later one if and only if the cut leaves no room for a digit |
| ShellNaming.NamesArePlain | src/workgate/jobs/lifecycle.py:49-52 | Every name is of ASCII letters, digits, underscores, dots and dashes, between 1 and 48 long, without a dot or a dash at either end |
| ShellNaming.PlainNamesStay | src/workgate/jobs/lifecycle.py:49-52 | A name like that is left as it is |
| ShellNaming.SpaceAroundDropsOut | src/workgate/jobs/lifecycle.py:49-52 | White space around a name does not matter |
| RunnerLog.CapturedIsASuffix | src/workgate/jobs/runner.py:89-107 | After every chunk, for any chunking, the file is a suffix of the stream, at most twice the limit, at least as long as the limit asks, and shorter than the stream exactly when it was cut |
| RunnerLog.LogFile.Read | src/workgate/jobs/runner.py:37 | The bytes from the position, as many as there are |
| RunnerLog.LogFile.Write | src/workgate/jobs/runner.py:40 | The bytes overwrite what stood at the position; the rest stays |
| RunnerLog.LogFile.CompactLog | src/workgate/jobs/runner.py:31-43 | The newest bytes up to the limit remain, and a cut is reported exactly when there was more |
| RunnerLog.LogFile.AppendChunk | src/workgate/jobs/runner.py:95-102 | One turn of the loop: the chunk is appended, and the file compacted once it passes twice the limit |
| RunnerLog.LogFile.Capture | src/workgate/jobs/runner.py:89-107 | After a normal exit the log is the last min(total, limit) bytes of the output, the count is the total, and truncation is reported exactly when the total exceeds the limit |
| RunnerLog.LogFile.AppendManagedLog | src/workgate/jobs/managed.py:296-320 | A managed line is appended and the log kept to its newest bytes |
| JsNumber.SmallPrintsBack | ui-opentui/src/terminal-output.ts:60 | Every whole number below 2^53 prints as its own digits |
| JsNumber.PrintsBackIsAboutText | ui-opentui/src/terminal-output.ts:57-65 | A number prints as itself if and only if the printed text is its digit string, and prints as digits at all if and only if the text holds nothing else |
| JsPrinting.RoundedIsNearest | ui-opentui/src/terminal-output.ts:60 | A whole number is held as the nearest number of at most 53 significant bits, and of two as near as the one with the even significand |
| JsPrinting.PrintedIsShortest | ui-opentui/src/terminal-output.ts:60-65 | What a number prints as reads back as its double, ends in at least as many zeros as anything that does, and is as near or ends in more |
| JsPrinting.DigitsBelowTenToThe21 | ui-opentui/src/terminal-output.ts:60-65 | A number prints as digits if and only if what it prints as is below 10^21 |
| JsPrinting.AlteredUnlessADouble | ui-opentui/src/terminal-output.ts:57-65 | A number that is no double and does not end in a zero never prints as itself |
| JsPrinting.FirstAltered | ui-opentui/src/terminal-output.ts:57-65 | 2^53 + 1 is the case: it prints as 2^53 |
| TerminalWrap.SgrResetIndex | ui-opentui/src/terminal-output.ts:42-55 | The position found is that of the last reset parameter: what stands behind it is what stands behind the last reset, colour arguments skipped |
| TerminalWrap.DroppingUpToResetKeepsState | ui-opentui/src/terminal-output.ts:42-65 | From any rendition, the parameters after the last reset applied to the default rendition give the same rendition as all of them |
| TerminalWrap.NextSgrStateOf | ui-opentui/src/terminal-output.ts:57-65 | The carried text after one more escape |
| TerminalWrap.CarriedStateIs | ui-opentui/src/terminal-output.ts:57-65 | After any part of a line the carried state replays to the rendition of the line so far if and only if the parameters behind the last reset print as themselves; it shows something if and only if one of them does not print as digits |
| TerminalWrap.WrapTerminalLine | ui-opentui/src/terminal-output.ts:79-119 | The rows are those of the one-token-at-a-time scan |
| TerminalWrap.WrappingPreservesMeaning | ui-opentui/src/terminal-output.ts:79-119 | Rows shown one by one from the default rendition show what the line shows, if and only if at every break the parameters behind the last reset print as themselves |
| TerminalWrap.AltersAtSomePosition | ui-opentui/src/terminal-output.ts:96-115 | Such a break is a position of the line |
| TerminalWrap.OrdinaryNumbersPreserveMeaning | ui-opentui/src/terminal-output.ts:79-119 | Meaning is preserved for every line whose escapes carry only numbers below 2^53 after their last reset |
| TerminalWrap.ColonColourSpills | ui-opentui/src/terminal-output.ts:57-65 | A concrete line with a colon colour after a reset shows stray text when wrapped |
| TerminalWrap.ExponentSpills | ui-opentui/src/terminal-output.ts:57-65 | A concrete line with the parameter 10^21 after a reset shows the text `+21m` when wrapped |
| TerminalColours.DirectColour | ui-opentui/src/terminal-output.ts:42-55 | A direct colour takes exactly four more parameters, whatever they are, in the meaning and in the search |
| TerminalColours.IndexedColour | ui-opentui/src/terminal-output.ts:42-55 | An indexed colour takes exactly two |
| TerminalColours.ModelessColour | ui-opentui/src/terminal-output.ts:42-55 | A colour of another mode, or none, takes nothing |
| TerminalColours.BrokenOffColour | ui-opentui/src/terminal-output.ts:42-55 | A colour that breaks off takes what there is |
| TerminalColours.CodesPerformed | ui-opentui/src/terminal-output.ts:42-65 | The rendition after any escape written from resets, attributes and colours is that of its commands, one by one |
| TerminalColours.SearchFindsTheLastReset | ui-opentui/src/terminal-output.ts:42-55 | What is found behind the last reset is the parameters of exactly the commands behind it |
| TerminalColours.ColourIsCarried | ui-opentui/src/terminal-output.ts:79-119 | An escape without a reset is repeated, whatever its parameters, on the row after a break |
| TerminalColours.LeftoverIsCarried | ui-opentui/src/terminal-output.ts:57-119 | With a reset, the next row starts with just the parameters behind it, or plain when there are none |
| TerminalColours.RedStaysRed | ui-opentui/src/terminal-output.ts:42-119 | Pure red, whose green and blue are zero, is still red on the second row |
| TerminalColours.JoinedIs | ui-opentui/src/terminal-output.ts:60-65 | Rebuilt parameters are written with semicolons between them, and anything that is no number as `NaN` |
| TerminalColours.SequenceEnds | ui-opentui/src/terminal-output.ts:57-65 | A rebuilt control sequence runs through its first final byte, and what follows it is shown |
| TerminalRows.WrappedRowsFit | ui-opentui/src/terminal-output.ts:79-119 | Unless a parameter that does not print as digits was re-emitted: every row fits unless its one grapheme is wider than the whole width; no row is broken early; each row ends in the default rendition |
| TerminalRows.ScanIsShaped | ui-opentui/src/terminal-output.ts:96-115 | The same throughout the scan, with the counted columns equal to the row's width |
| AuditRetention.UnitsAreAPartition | src/workgate/audit/core.py:379-402 | Retention units hold every line once; two lines share a unit exactly when they are of one call; units are ordered by their latest line |
| AuditRetention.TotalIsTheSum | src/workgate/audit/core.py:405-425 | The size of a log is the sum of its lines' sizes |
| AuditRetention.GroupLines | src/workgate/audit/core.py:379-402 | The grouping loop gives those units |
| AuditRetention.TrimIsBoundedAndPairClosed | src/workgate/audit/core.py:405-425 | A trimmed log is within the limit, in the old order, with all or none of each call's lines; its units are, of exactly those no larger than the limit, the newest up to half the limit (at least one byte): the newest is kept, and the next older one would pass the half unless it is reached |
| AuditRetention.EnforceLogLimit | src/workgate/audit/core.py:405-425 | The loop leaves that log, and reports a change exactly when the log was over its limit |
| AuditPayloads.CollectorsAgree | src/workgate/audit/payloads.py:76-103 | The two reference collectors agree: the digests are those of the metadata, at any nesting |
| AuditPayloads.FittingUnitsFit | src/workgate/audit/core.py:483-499 | The units kept are the newest ones, the payloads they reference fit the quota, and with the next older unit they would not |
| AuditPayloads.SweptPositionsOk | src/workgate/audit/core.py:500-506 | The rewritten log keeps the order, exactly the lines of the kept units, and whole calls |
| AuditPayloads.RecordsAreCounted | src/workgate/audit/core.py:428-447 | Every payload a kept record mentions was counted by the unit loop |
| AuditPayloads.OrderedEviction | src/workgate/audit/payloads.py:322-335 | If the active payloads fit the quota, evicting inactive before active and old before new reaches the quota without touching an active one |
| AuditPayloads.SweepKeepsLivePayloads | src/workgate/audit/core.py:464-516 | After a sweep the store is within its quota without links and stray names, and every payload named by an unexpired reference of a kept record is still there if it was before |
| AuditPayloads.PayloadStore.Expire | src/workgate/audit/payloads.py:297-320 | The first loop unlinks exactly the files that do not survive: links and stray names, expired orphans, and files with no active reference |
| AuditPayloads.PayloadStore.EvictDown | src/workgate/audit/payloads.py:322-335 | The second loop unlinks in eviction order until the rest fits |
| AuditPayloads.PayloadStore.Prune | src/workgate/audit/payloads.py:289-335 | What remains in the directory after both loops |
| AuditPayloads.Sweep | src/workgate/audit/core.py:464-516 | One sweep over log and store: the log is the swept log, and the store is pruned by what its records mention |
| AuditPayloads.EnforceRetention | src/workgate/audit/core.py:450-516 | The log is cut to its limit; log and store are swept if and only if a payload was stored, the log was cut, or the last sweep is a minute old; otherwise nothing changes |
| AuditSweep.MetadataIs | src/workgate/audit/payloads.py:76-88 | The collector finds exactly the references that stand somewhere in a value, at any nesting |
| AuditSweep.RefsAreMentions | src/workgate/audit/core.py:428-447 | What a sweep counts is exactly the references that stand in records of the log |
| AuditSweep.EvictionTakesTheOldest | src/workgate/audit/payloads.py:322-335 | A file is evicted only when everything left goes after it, and only while the rest would not fit |
| AuditSweep.SweepDecides | src/workgate/audit/core.py:464-516 | After a sweep every proper file with a young mention is there, every file that is a link, a stray, only mentioned long ago or an old orphan is gone, and of the rest only the oldest go, while the quota needs it |
| AuditSweep.BytesAdd | src/workgate/audit/payloads.py:322-335 | The bytes of two lists of files add up |
| AuditSweep.RetainOnce | src/workgate/audit/core.py:450-516 | One whole pass over a directory as it is listed: the log is within its limit; a sweep is made exactly when a payload was stored, the log was over its limit or the last sweep is a minute old; after it the payloads fit the quota, every file is kept or removed by its age and by what the log still says of it; otherwise nothing changes |
| AuditCoalesce.Coalesce | src/workgate/audit/core.py:707-768 | The loop's rows are those of the pass over the whole log |
| AuditCoalesce.PassTracks | src/workgate/audit/core.py:707-768 | After any prefix, rows, open calls, known calls and queues are what definitions over log positions say they should be |
| AuditCoalesce.RowsPartitionTheLog | src/workgate/audit/core.py:707-768 | Every record is in exactly one row, once, in log order, except hidden events and lifecycle records of an unknown parent, which are in none; rows come in the order of their first records |
| AuditCoalesce.RowsShowTheirEnd | src/workgate/audit/core.py:648-693 | A row is paired if and only if some end finishes its start, and then shows that end's outcome; unfinished calls run and lone ends stay unpaired |
| AuditCoalesce.FinishedOnce | src/workgate/audit/core.py:740-754 | No start is finished by two ends |
| AuditCoalesce.FinishesAStart | src/workgate/audit/core.py:740-754 | An end finishes an earlier start with the same call id, or without ids the same key |
| AuditCoalesce.EndTakesTheOpenStart | src/workgate/audit/core.py:740-742 | By id, an end finishes a start if and only if no start or end with that id lies between them |
| AuditCoalesce.LegacyIsFirstInFirstOut | src/workgate/audit/core.py:743-746 | Without ids, an end never overtakes an older start of its key |
| AuditRows.RowShowsOutcome | src/workgate/audit/core.py:648-693 | A row is a call, a lone end or a plain record by its first record; a paired one lists an end of its call and shows success, failure or completion as that end's boolean says, and an unpaired one what it is |
| AuditRows.NestedRecordsGoToTheirCall | src/workgate/audit/core.py:719-732 | A record that names a parent is in the row of the latest call with that id, or in its own when there is none and it is neither start nor end |
| AuditRows.RelatedAreTheNamed | src/workgate/audit/core.py:696-704 | A row's related events are its named records other than its first, in log order |
| HashlineText.ResplitIsStable | src/workgate/ops/files.py:954-957 | Joining file lines and splitting again returns the same lines |
| HashlineText.SplitIs | src/workgate/ops/files.py:814-833 | Splitting gives closed lines, except perhaps the last, that join back to the text |
| HashlineText.ReplacementIsTheRows | src/workgate/ops/files.py:523-538 | A replacement has one line per row with exactly its text, blank rows included, and every line is closed unless it ends a file that had no final newline |
| HashlineText.ReplacementKeepsTexts | src/workgate/ops/files.py:523-538 | Any replacement text keeps its line texts whether or not its last line has to be closed |
| HashlineEdit.NeighboursSuffice | src/workgate/ops/files.py:924-938 | Comparing neighbours after sorting passes if and only if no two hunks overlap |
| HashlineEdit.UpdateIsASubstitution | src/workgate/ops/files.py:941-953 | Once the check passes, the descending splices are the gaps and replacements interleaved in original order |
| HashlineEdit.InputOrderDoesNotMatter | src/workgate/ops/files.py:924-953 | Any rearrangement of the hunks passes the check too and gives the same file |
| HashlineEdit.ReplacementsAreWhereReported | src/workgate/ops/files.py:973-1022 | Each replacement stands exactly at its start line plus what the hunks before it add, and the length changes by the sum of the deltas |
| HashlineEdit.UpdatedBytes | src/workgate/ops/files.py:941-959 | The size of the edited file in UTF-8 is the old size with what each hunk adds |
| HashlineApply.PreparedMeansAsked | src/workgate/ops/files.py:780-921 | A hunk can be prepared if and only if the file is not too large, its range is in the file and was shown, the snapshot is the file as it is now and its old text matches; and then it replaces the range by the rows asked for |
| HashlineApply.EditSucceedsWhen | src/workgate/ops/files.py:780-961 | Preparation succeeds if and only if every operation is possible alone; the edit then succeeds if and only if no two ranges overlap and the new size is within the limit |
| HashlineRefusals.RefusedByBounds | src/workgate/ops/files.py:814-872 | An operation is refused first for the file's size, then for a line below one, an end before its start, or a line beyond the file |
| HashlineRefusals.RefusedBySnapshot | src/workgate/ops/files.py:780-921 | In the file, it is refused for an unknown snapshot, one of another file, a changed file, a line that no one shown range has, or an old text that differs in some line; and otherwise prepared |
| HashlineRefusals.SizesAreUtf8 | src/workgate/ops/files.py:954-959 | Sizes are UTF-8 lengths and add up |
| HashlineApply.SecondEditIsRefused | src/workgate/ops/files.py:780-813 | An edit that changed the file is refused when given again: its snapshots no longer hold the file's contents |
| HashlineApply.EditsDoWhatWasAsked | src/workgate/ops/files.py:845-970 | After a successful edit the line texts are the asked-for substitution in the old texts, and the written file reads back as exactly the reported lines |
| HashlineApply.InsertionOnlyAdds | src/workgate/ops/files.py:884-894 | An insertion leaves every old line's text in place around the new rows |
| HashlineApply.ValidateOverlap | src/workgate/ops/files.py:924-938 | The loop accepts if and only if no two hunks overlap |
| HashlineApply.ApplyHunks | src/workgate/ops/files.py:941-953 | The splice loop gives the simultaneous substitution |
| HashlineApply.ContextOf | src/workgate/ops/files.py:991-1004 | The lines shown for a replacement are those there are from three before it to four behind it, all of it included |
| HashlineApply.Contexts | src/workgate/ops/files.py:973-1027 | The reports are returned in input order, each with its hunk's new start line and the lines there are from three before the replacement to four behind it |
| HashlineApply.PrepareHunks | src/workgate/ops/files.py:1058-1068 | The first operation that cannot be prepared refuses the edit; otherwise every hunk lies in the file |
| HashlineApply.EditLocked | src/workgate/ops/files.py:1049-1094 | Preparation, check, splices, size check and report together: the edit's result, with reports in input order that fit it |
| HashlineParse.RowReadBack | src/workgate/ops/files.py:292-302 | A printed row reads back as its line number and text, whatever the text |
| HashlineParse.HeaderReadBack | src/workgate/ops/files.py:551 | A printed header reads back as its path and snapshot id, also when the path holds number signs |
| HashlineParse.EditReadBack | src/workgate/ops/files.py:635-701 | A written edit, copied or directive, parses to exactly what it means |
| HashlineParse.PrintedInputReadsBack | src/workgate/ops/files.py:704-758 | Any list of written edits without line breaks in their parts, printed and joined into one text, parses to exactly those edits: path, snapshot id, line numbers, old text and new rows, in order |
| HashlineParse.ReadLines | src/workgate/ops/files.py:721-758 | The line loop and its flushes give the hunks, or the first error |
| HashlineParse.ParseHashlineInput | src/workgate/ops/files.py:704-758 | The whole parser on a text: its lines, blank ones dropped at both ends, and the line loop |
| HashlineGrammar.RowGrammar | src/workgate/ops/files.py:552 | A line reads as a row if and only if it is digits, a colon and the text |
| HashlineGrammar.HeaderGrammar | src/workgate/ops/files.py:551 | A line reads as a header if and only if it is a path and a snapshot id in brackets, parted by the last number sign that leaves an id |
| HashlineGrammar.SwapGrammar | src/workgate/ops/files.py:553-555 | A SWAP reads if and only if it is the word in any case, white space, a number, perhaps a dash and another, a colon and white space |
| HashlineGrammar.InsertGrammar | src/workgate/ops/files.py:556-559 | An INSERT reads if and only if it is the word, perhaps BEFORE or AFTER, a number, a colon and white space, with before meant when nothing is said |
| HashlineGrammar.HunkGrammar | src/workgate/ops/files.py:621-701 | A hunk parses to an operation if and only if its lines say just that: a SWAP of a proper range, an INSERT of at least one row, or consecutive copied rows, each with nothing but plus rows after it |
| HashlineSections.RunsAre | src/workgate/ops/files.py:721-758 | The runs of hunk lines, each once and in order, are the longest stretches of lines that are neither blank nor headers |
| HashlineSections.InputIsItsRuns | src/workgate/ops/files.py:704-758 | An input parses to a list of operations if and only if it has a run and every run says its operation under the latest header before it, in order; blank ends do not matter |
| HashlineRoundTrip.WrittenIsAsked | src/workgate/ops/files.py:635-921 | An edit written against a file it names, under a snapshot that showed the lines, parses to an operation that can be prepared there and asks for just that edit |
| HashlineRoundTrip.WrittenEditsTakeEffect | src/workgate/ops/files.py:704-970 | Edits written as one text against one file, on lines that were shown and do not overlap, all parse; they apply if and only if the old and the new size are within the limit, and then the line texts are the written edits substituted at once and the file reads back as its lines |
| WorkerRegistry.GoodStep | src/workgate/agent_bridge/mcp.py:393-477 | Every step of get, discard, retain, close and of a dying worker keeps what the holder of a lifecycle lock relies on |
| WorkerRegistry.OneLiveWorkerPerName | src/workgate/agent_bridge/mcp.py:393-477 | Over all interleavings at most one worker of a name is alive, and it is the registered one whenever the name's lifecycle lock is free |
| WorkerRegistry.ReplacementsWaitForTheJoin | src/workgate/agent_bridge/mcp.py:416-438 | A worker is started only when none of its name is alive |
| WorkerRegistry.TimedOutWorkerStaysRegistered | src/workgate/agent_bridge/mcp.py:311-320 | A join that times out leaves the old worker registered and unusable, so it is neither handed out nor replaced while it lives |
| WorkerRegistry.GetReturnsAFittingWorker | src/workgate/agent_bridge/mcp.py:416-438 | A get returns a registered worker of that name and configuration, and an existing one only while it is usable |
| WorkerCalls.CallsReachTheirLook | src/workgate/agent_bridge/mcp.py:393-422 | A call takes its name's lock and looks with what it was called with |
| WorkerCalls.GetReusesAWorker | src/workgate/agent_bridge/mcp.py:416-428 | A live worker of the asked configuration that nobody asked to close is returned, and nothing else changes |
| WorkerCalls.GetAsksTheOldWorker | src/workgate/agent_bridge/mcp.py:429-433 | Any other registered worker is asked to close and waited for under the lock |
| WorkerCalls.NewWorkerIsRegistered | src/workgate/agent_bridge/mcp.py:434-438 | A new worker is started alive and registered when the call returns |
| WorkerCalls.GetComesBack | src/workgate/agent_bridge/mcp.py:416-438 | When a get comes back, whatever others did meanwhile, it failed in a join or a start or a worker of its name and configuration is registered |
| WorkerCalls.RetirementAsks | src/workgate/agent_bridge/mcp.py:400-410 | A retirement asks its registered worker to close and waits for it under the lock |
| WorkerCalls.RetirementOfAStranger | src/workgate/agent_bridge/mcp.py:404-408 | A worker not registered any more is left alone |
| WorkerCalls.RetirementComesBack | src/workgate/agent_bridge/mcp.py:400-414 | When a retirement of a registered worker comes back, whatever others did meanwhile, the worker was asked to close, and unless the join timed out it is dead and registered nowhere |
| WorkerCalls.RetirementsInRuns | src/workgate/agent_bridge/mcp.py:400-414 | The same in every run from the empty manager |
| WorkerProgress.HolderCanFinish | src/workgate/agent_bridge/mcp.py:400-438 | Whoever holds a lifecycle lock can finish with no other call moving, its worker ended and its purpose reached, and the lock is free again |
| WorkerProgress.EveryCallCanFinish | src/workgate/agent_bridge/mcp.py:393-477 | Whatever all threads are doing, any call under way can come back with what it was made for once the holder of its lock is done |
| WorkerProgress.NoCallIsStuck | src/workgate/agent_bridge/mcp.py:393-477 | The same in every run from the empty manager |
| WorkerClose.GoodStep | src/workgate/agent_bridge/mcp.py:163-225 | Every step keeps phase and position in agreement, never moves the phase back, and never takes a close request back |
| WorkerClose.RunsStayGood | src/workgate/agent_bridge/mcp.py:175-182 | Over whole runs phases only move forward |
| WorkerClose.CloseRequestIsNeverLost | src/workgate/agent_bridge/mcp.py:280-309 | In every interleaving a returned close request is seen by a flag check, is cancelling start-up, or is on its way to the stop event |
| WorkerClose.RequestBeforeServingPreventsIt | src/workgate/agent_bridge/mcp.py:184-210 | A request made before the worker serves keeps it from ever serving |
| WorkerClose.StopWaitsForTheOperation | src/workgate/agent_bridge/mcp.py:280-289 | A serving worker is told to stop only while no operation holds the operation lock, and only because somebody asked |
| WorkerClose.CloseProgresses | src/workgate/agent_bridge/mcp.py:280-320 | Once a close request has returned, a worker that has not ended can take a step that brings its end nearer, with no further request |
| WorkerClose.CloseNeverRegresses | src/workgate/agent_bridge/mcp.py:280-320 | No step of anyone, new operations and further requests included, moves the end away |
| WorkerClose.CloseReachesTheEnd | src/workgate/agent_bridge/mcp.py:280-320 | From any such state the worker's own steps lead to its end |
| CloseHandshake.StartUpServes | src/workgate/agent_bridge/mcp.py:163-208 | A worker nobody asks to close starts and serves |
| CloseHandshake.RequestOnALoop | src/workgate/agent_bridge/mcp.py:303-309 | A request on a running loop sets the flag, leaves exactly one callback there and returns |
| CloseHandshake.RequestWithoutALoop | src/workgate/agent_bridge/mcp.py:303-309 | Without a loop it sets the flag and returns |
| CloseHandshake.CallbackCancelsStartUp | src/workgate/agent_bridge/mcp.py:291-300 | During start-up the callback cancels it, and the worker tears down and ends |
| CloseHandshake.CallbackQueuesAStop | src/workgate/agent_bridge/mcp.py:280-302 | While serving it makes one stop task, which queues for the operation lock behind whoever is there |
| CloseHandshake.OperationsFinishFirst | src/workgate/agent_bridge/mcp.py:280-289 | The operations ahead of a stop task finish one by one, and then it sets the stop event |
| CloseHandshake.AWholeClose | src/workgate/agent_bridge/mcp.py:280-320 | From a serving worker with any operations queued, one request leads through the callback, the stop task and the operations' turns to the end |

## Left out

- The lock, file, process and terminal-multiplexer primitives, gzip, hashing and JSON encoding: taken as the assumptions above.
- Managed jobs beyond their updates: leases, admission, task cancellation and retries of managed rows; a managed row may be relabelled by several processes.
- Journal replay order for a job of which some file could not be read: replay then skips that file, and the theorems about order do not speak of the job any more.
- Several shell jobs in one store: `ShellRuns` follows one job, and other rows are refreshed by the same function.
- ShellTheorems.NoOrphanedAttempt: assumes distinct shell names per attempt, which names longer than the cut do not have; `ShellNaming` gives the condition. One job is followed.
- ShellTheorems.RefreshSettlesInRuns: makes the same assumption about shell names.
- ShellTheorems.InterferedLaunch: interference comes between launch and commit of one operation; whole runs with several controllers at once are not followed.
- Tail text, list output, public views and messages of the job operations.
- Grapheme segmentation and cell widths: a grapheme is a token with its width.
- Control sequences that end in `m` with intermediate bytes, such as a space before the final byte.
- Terminal output beyond one line: blank-line trimming and scroll limits would only add easy members.
- Per-session audit logs: payload protection consults the global log only, in the source as here.
- Redaction, sanitizing and search of audit rows; the fields of a row other than its records, pairing and status.
- Several files in one hashline edit: files are written one by one, and each file's hunks are independent of the others'.
- Diffs and remote dispatch of hashline edits.
- HashlineParse.PrintedInputReadsBack: digits and letter case are the ASCII ones, and snapshot ids contain neither a number sign nor a bracket, as generated ids do.
- HashlineGrammar.HunkGrammar: digits and letter case are the ASCII ones here too; the source's patterns also take other decimal digits. Which of several errors a refused input gets is not stated.
- Line separators other than the newline: texts and files in the model hold none. The source also splits lines at carriage return, form feed, vertical tab, U+001C to U+001E, U+0085, U+2028 and U+2029.
- The sessions, tool calls and results of stdio workers, and a close request that reaches an event loop which stops in between.
- OAuth, HTTP routes, command line, downloads, user interface screens and settings.
