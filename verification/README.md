# OperationsCenter: verified model

OperationsCenter dispatches long audits of managed repositories, decides which improvement
proposals to emit, keeps a signed corpus its agents are graded against, and guards what
untrusted text can do on the way. This project models the parts of it whose promises span
whole runs, in Dafny, and proves them.

## What is modelled

**Audit dispatch.** `LockFiles`, `LockStore` and `Locks` are the lock store, the in-process
registry and its handles, as classes whose methods are proved against descriptions of what
they do to the directory. `DispatchProtocol` takes the same operations apart into atomic
steps of any number of processes and threads, with crashes, audit exits, sentinel timeouts,
stray releases and PID reuse. `DispatchThreads` follows what each thread keeps to itself, its
temporary file and its handle, `DispatchInvariant` proves the invariant, and `DispatchSafety`
what follows from it for every run. `DispatchRuns` shows that the two descriptions of the store
agree and that the proviso of the safety theorem cannot be dropped, and `DispatchExactness`
says exactly when an overlap is ahead.

**Decision engine.** `DecisionModel`, `DecisionPolicy` and `DecisionService` are the
suppression pipeline up to the greedy loop. `DecisionOutcomes` reads what a run emits, and why
it suppresses the rest, off the inputs. `DecisionOptimality` proves the loop optimal among all
selections within its three nested quotas. `DecisionHistory` feeds each run the artifacts of
the earlier ones and proves cooldown spacing and upstream-first order.

**Evaluation ledger.** `Json` is a concrete printer and parser of JSON texts (RFC 8259);
`JsonRoundTrip`, `JsonPrefix`, `JsonText` and `Lines` are what is needed about them. `Ledger`,
`LedgerLines`, `LedgerFile` and `LedgerTail` are loading, verifying, rewriting and appending,
down to the characters of the file, and `LedgerText` says what the texts hold. `TamperEvidence`
says what the chain reveals. The hash is an arbitrary function into 64 hexadecimal digits; each
theorem ends in "or these two bodies of these ledgers collide, or this one hashes to genesis",
so nothing is assumed about it. `Signing` takes one key pair that verifies what it signs as a
parameter.

**Governed runs.** `GovernancePolicy` and `GovernedRuns` are the eight checks, the decision
and the run with its state files; histories are any sequence of runs with any configuration.
`BudgetProtocol` interleaves the budget reads and increments of concurrent runs, and
`BudgetExactness` gives exact conditions for what they can come to.

**Untrusted text.** `Fence` is the fence, the search that takes the payload out again, and the
nonce redaction; `FenceSearch` says what the search finds in any text. `Sanitize` is the comment
sanitizer.

**Smaller machines.** `InFlight` reconciles the event log with the tasks, `Panel` compares
the cross-family panel with the single monitor, `BackendHealth` is the health registry.

## Where the code and its documentation differ

The model follows the code.

- `src/operations_center/audit_dispatch/lock_store.py:18-21` says an orphaned audit keeps its
  lock until it exits. That holds once its PID is recorded; a death before that leaves the
  audit uncovered (`DispatchRuns.UnrecordedDeathLeadsToOverlap`).
- `src/operations_center/audit_dispatch/api.py:127-128` calls the lock process-scoped and in
  memory; it is also on disk and does exclude other processes.
- `src/operations_center/eval/corpus.py:7-16` calls any edit or deletion detectable. A dropped
  tail is not (`TamperEvidence.DroppedTailVerifies`).
- `src/operations_center/eval/corpus.py:175-177` promises never to extend a corrupted ledger.
  A ledger that loads and verifies but whose last line lacks its newline is extended into one
  that no longer loads (`LedgerTail.AppendExtends`), and so is one given a case with U+0085,
  U+2028 or U+2029 in a text, because the printer leaves these as they are and the loader
  splits at them.
- `src/operations_center/injection.py:201` calls the sanitizer idempotent. A truncation right
  behind a mention's separator makes it not (`Sanitize.IdempotentExactly`).
- `src/operations_center/audit_governance/budgets.py:95-99` says the lock prevents
  double-counting. It does, but the check that precedes the dispatch is a separate turn at the
  lock, so N concurrent runs can overshoot by N - 1 (`BudgetProtocol.OvershootReached`).
- `src/operations_center/audit_governance/cooldowns.py:82-84` says concurrent runners cannot
  clobber each other's cooldown timestamps. Their writes do not mix, but the time is taken at
  `src/operations_center/audit_governance/runner.py:286`, before either lock, so an older run
  that writes last moves the timestamp back (`BudgetExactness.MovesBackExactly`).
- `src/operations_center/audit_governance/budgets.py:20-21` names a state file after repo and
  audit type, but not every pair has a file of its own (`GovernedRuns.MayShareExactly`).

## Model

| member | source | states |
|---|---|---|
| `LockStore.PersistentLockStore.Read` | src/operations_center/audit_dispatch/lock_store.py:173-185 | nothing for a missing file, an error for a torn one, otherwise the payload; both directions of each case |
| `LockStore.PersistentLockStore.TryAcquire` | src/operations_center/audit_dispatch/lock_store.py:219-239 | refuses a lock with a live PID and a torn file, replaces a dead lock; the whole new directory is stated |
| `LockStore.PersistentLockStore.Release` | src/operations_center/audit_dispatch/lock_store.py:241-248 | removes the file whoever holds it and says whether there was one |
| `LockStore.PersistentLockStore.Update` | src/operations_center/audit_dispatch/lock_store.py:250-264 | rewrites the audit PIDs of the lock on disk, keeping every other field; refuses a missing or torn file |
| `LockStore.PersistentLockStore.ReclaimIfStale` | src/operations_center/audit_dispatch/lock_store.py:266-282 | removes a lock exactly when it is torn or both recorded processes are dead |
| `LockStore.PersistentLockStore.IterLockFiles` | src/operations_center/audit_dispatch/lock_store.py:187-202 | every lock file without a dot in its stem, each once, sorted by file name |
| `LockStore.PersistentLockStore.SweepStale` | src/operations_center/audit_dispatch/lock_store.py:284-291 | removes every listed stale lock and no other file, and reports exactly those repos, each once, in file-name order |
| `LockStore.ListedByCodePoint` | src/operations_center/audit_dispatch/lock_store.py:187-202 | of two listed names the first begins the second, or has the smaller code point at their first difference |
| `LockStore.AcquireExcludes` | src/operations_center/audit_dispatch/lock_store.py:219-239 | a lock taken by a live process refuses every later acquire of the repo and survives it unchanged |
| `LockStore.RecordOutlivesDispatcher` | src/operations_center/audit_dispatch/lock_store.py:250-282 | once the audit PID is recorded, neither reclaim nor sweep takes the lock while the audit lives, even with the dispatcher dead |
| `Locks.ManagedRepoAuditLockRegistry.SweepOnce` | src/operations_center/audit_dispatch/locks.py:192-199 | stale locks are swept on first use and never again |
| `Locks.ManagedRepoAuditLockRegistry.Acquire` | src/operations_center/audit_dispatch/locks.py:130-166 | takes the repo in memory and on disk or in neither, with the fresh handle that stands for it; each refusal leaves both alone |
| `Locks.ManagedRepoAuditLockRegistry.ReleaseRepo` | src/operations_center/audit_dispatch/locks.py:168-181 | drops the repo from memory and removes its file |
| `Locks.ManagedRepoAuditLockRegistry.IsHeld` | src/operations_center/audit_dispatch/locks.py:201-212 | held exactly when this process holds it or the file on disk names a live process |
| `Locks.ManagedRepoAuditLock.UpdateAuditPid` | src/operations_center/audit_dispatch/locks.py:79-89 | names the audit on disk and in the handle together; a handle without payload changes nothing |
| `Locks.ManagedRepoAuditLock.Release` | src/operations_center/audit_dispatch/locks.py:91-95 | the first release gives the lock back; any later one changes nothing, not even a lock somebody took since |
| `Locks.DispatchTwice` | src/operations_center/audit_dispatch/locks.py:91-181 | acquire, record, release, acquire again, stray release of the first handle: the second lock is still there |
| `DispatchInvariant.NextKeepsInv` | src/operations_center/audit_dispatch/lock_store.py:219-316 | every step of every process, crash and audit exit keeps the protocol invariant |
| `DispatchInvariant.ExecKeepsInv` | src/operations_center/audit_dispatch/api.py:164-195 | the invariant holds after every run of the step system |
| `DispatchSafety.OverlapNeedsUncovered` | src/operations_center/audit_dispatch/lock_store.py:12-21 | in every reachable state, of two live audits of one repo one has lost its dispatcher and is not named by the lock file |
| `DispatchSafety.UncoveredWasLost` | src/operations_center/audit_dispatch/executor.py:108-124 | such an audit exists only after some process died while its own audit was alive and not yet recorded |
| `DispatchSafety.NoOverlapUnlessLost` | src/operations_center/audit_dispatch/api.py:164-195 | in every interleaving, two audits of one repo are alive together only after such a death, and only while such an audit lives |
| `DispatchSafety.LostMeans` | src/operations_center/audit_dispatch/executor.py:108-124 | a death loses a repo's audit exactly when a thread of the process dispatched it, it is alive, and the repo's lock file does not name it |
| `DispatchSafety.HeldIsExclusive` | src/operations_center/audit_dispatch/locks.py:130-181 | in every reachable state a repo in a live process's held set has a whole file with that PID, and no other live process holds it |
| `DispatchSafety.ReadersSeeWholeFiles` | src/operations_center/audit_dispatch/lock_store.py:297-316 | in every reachable state no lock file is half-written, while the only half-written temporary files are those of threads still writing them |
| `DispatchSafety.RenameIsWhole` | src/operations_center/audit_dispatch/lock_store.py:297-316 | wherever a thread is about to rename, that puts exactly the payload it drafted in place of the lock file, changes no other file and leaves no temporary file |
| `DispatchThreads.NextKeepsLocal` | src/operations_center/audit_dispatch/locks.py:91-95 | every step of every process keeps the temporary file of each thread at what its place in the write says, and its handle absent before commit, open until its release begins and released from then on |
| `DispatchSafety.StrayReleasesDoNothing` | src/operations_center/audit_dispatch/locks.py:91-95 | any run with any number of second releases of finished dispatches at any moments ends in the same state as the run without them, whoever holds the lock by then |
| `DispatchSafety.ReclaimTakesOnlyDeadLocks` | src/operations_center/audit_dispatch/lock_store.py:266-295 | wherever sweep or reclaim is about to remove a file, no live process holds the repo and every live audit of it is one that the file does not cover |
| `DispatchSafety.OneInsideSentinel` | src/operations_center/audit_governance/file_locks.py:27-56 | in every reachable state, while a thread is inside a sentinel lock no other thread of any process is at work on that lock file |
| `DispatchSafety.TimeoutTells` | src/operations_center/audit_governance/file_locks.py:27-56 | a sentinel times out only while another thread holds it, changes no file and no audit, and each of the four callers goes on its own way |
| `DispatchSafety.CrashTells` | src/operations_center/audit_dispatch/lock_store.py:12-21 | a death takes the process with its threads, sentinels, temporary files and handles, and leaves lock files and audits |
| `DispatchSafety.AnyFreePid` | src/operations_center/audit_dispatch/lock_store.py:12-21 | any positive PID without a live process can be given out again, and no other |
| `DispatchRuns.OperationAlone` | src/operations_center/audit_dispatch/lock_store.py:219-282 | the fine-grained steps of a store operation, uninterrupted, amount to its sequential description, for a thread without a temporary file |
| `DispatchRuns.AcquireAlone` | src/operations_center/audit_dispatch/locks.py:130-166 | an uninterrupted dispatch comes to what the registry's acquire does: the repo in memory and on disk or in neither, the handle open, the registry free again |
| `DispatchRuns.ReleaseAlone` | src/operations_center/audit_dispatch/locks.py:168-181 | an uninterrupted release takes the repo out of memory and its file out of the directory and lets the registry go |
| `DispatchRuns.UnrecordedDeathLeadsToOverlap` | src/operations_center/audit_dispatch/executor.py:108-124 | the proviso is needed: a death between spawn and record does lead, through a full sweep by the next process, to two audits of one repo |
| `DispatchExactness.OverlapAheadExactly` | src/operations_center/audit_dispatch/lock_store.py:12-21 | from any reachable state two audits of a repo can come to overlap without a further loss for it if and only if an uncovered audit of it is alive |
| `DecisionPolicy.FindLastEmittedAt` | src/operations_center/decision/policy.py:138-147 | the time of the first artifact in list order that holds the key |
| `DecisionPolicy.Apply` | src/operations_center/decision/policy.py:35-136 | the loop emits the greedy selection of the specs sorted by priority (`DecisionOptimality.EmittedInOrder`) and records every other spec under the reason that stopped it (`DecisionOutcomes.RejectedExactly`) |
| `DecisionOptimality.EmittedInOrder` | src/operations_center/decision/policy.py:49 | emitted specs ascend by major number, then minor number, then tag as text |
| `DecisionOutcomes.EligibleExactly` | src/operations_center/decision/policy.py:48-108 | a spec can be emitted exactly when its confidence level reaches the configured one, its file estimate is within the limit, and the first artifact holding its key is older than the cooldown |
| `DecisionOutcomes.VerdictTells` | src/operations_center/decision/policy.py:49-136 | the first of six grounds that applies is the reason, on the fields of the spec and the specs chosen so far |
| `DecisionOutcomes.RejectedExactly` | src/operations_center/decision/policy.py:49-136 | the policy's records are exactly the specs with a verdict, each under it |
| `DecisionModel.FamilyOfKey` | src/operations_center/decision/candidate_builder.py:80 | the family can be read off a dedup key, so groups of equal keys nest inside families |
| `DecisionModel.DedupKeyIdentifies` | src/operations_center/decision/candidate_builder.py:80 | two specs without bars in family and subject share a dedup key exactly when family, subject and pattern agree |
| `DecisionOptimality.PickedMembers` | src/operations_center/decision/policy.py:49-136 | emitted specs are eligible, distinct by key, and within the family and total quotas |
| `DecisionOptimality.NoLargerSelection` | src/operations_center/decision/policy.py:49-136 | no choice of eligible specs within the three quotas is larger than the greedy one |
| `DecisionOptimality.GreedyIsOptimal` | src/operations_center/decision/policy.py:49-136 | the emitted list is a selection, none is larger, and its i-th priority is no later than the i-th of any selection, by major number, minor number and tag |
| `DecisionService.ApplyChain` | src/operations_center/decision/chain_policy.py:43-100 | specs with an active upstream are recorded under the first one that blocks them, the rest pass in order |
| `DecisionOutcomes.ChainExactly` | src/operations_center/decision/chain_policy.py:20-98 | type fixes pass only with no lint fix, and health follow-ups only with no test visibility, in the run or emitted since the cutoff; every other family passes |
| `DecisionOutcomes.ChainRecordsExactly` | src/operations_center/decision/chain_policy.py:60-100 | what is held back is recorded under its upstream family, in-cycle before recent |
| `DecisionService.Decide` | src/operations_center/decision/service.py:144-269 | the stages in order: family gate, execution budget, velocity cap, stale proposals, chain, greedy policy |
| `DecisionService.DecideConserves` | src/operations_center/decision/service.py:150-268 | whatever fires, the keys of candidates and suppressed together are exactly the keys of all specs, with multiplicity |
| `DecisionOutcomes.CandidatesTell` | src/operations_center/decision/service.py:150-250 | each candidate stems from a spec of an enabled family that is not stale, in scope and out of cooldown, in a run with capacity and velocity left, and is alone in its family |
| `DecisionOutcomes.GateRecordsExactly` | src/operations_center/decision/service.py:150-214 | the four gates before the chain policy record exactly the specs they stop, each under the first that stops it |
| `DecisionHistory.LoadsWindow` | src/operations_center/decision/loader.py:47-53 | with a history limit that covers the window, every artifact of the repo in the window is loaded |
| `DecisionHistory.LoadedTell` | src/operations_center/decision/loader.py:47-53 | only artifacts of the repo from other insight runs are loaded, newest first, no more than the limit, and none older than one left out |
| `DecisionHistory.CooldownSpacing` | src/operations_center/decision/policy.py:94-108 | over any sequence of runs, two emissions of one key are more than the cooldown apart |
| `DecisionHistory.KeysOnceInRun` | src/operations_center/decision/policy.py:82-92 | no key is emitted twice in one run |
| `DecisionHistory.UpstreamFirst` | src/operations_center/decision/chain_policy.py:51-98 | an emitted downstream family has no upstream emission in its run or within the cooldown before it |
| `DecisionHistory.RerunRepeats` | src/operations_center/decision/loader.py:47-53 | deciding again on the same insight run repeats every emission, so the cooldown needs distinct insight runs |
| `JsonRoundTrip.CanonicalRoundTrip` | src/operations_center/eval/corpus.py:40-45 | parsing the canonical text gives the value back, dictionaries in key order |
| `JsonRoundTrip.CanonicalInjective` | src/operations_center/eval/corpus.py:40-45 | equal canonical texts come from equal values |
| `JsonText.CharacterWritten` | src/operations_center/eval/corpus.py:40-45 | each character of a text is written as itself, by its short escape, or by its code point in four hexadecimal digits |
| `JsonText.TextsJoin` | src/operations_center/eval/corpus.py:40-45 | a text is written character by character |
| `JsonText.NumberWritten` | src/operations_center/eval/corpus.py:40-45 | a number is written in decimal digits without leading zeros, a negative one behind one minus sign |
| `JsonText.CanonicalTight` | src/operations_center/eval/corpus.py:40-45 | canonical text spends no character on layout: without blanks in texts and keys every character is above the blank |
| `JsonPrefix.CutShortFails` | src/operations_center/eval/corpus.py:145-148 | no proper prefix of a printed dictionary is a JSON text |
| `Ledger.LoadLedger` | src/operations_center/eval/corpus.py:131-154 | line by line, blank lines skipped, the first bad line stops the load with its number |
| `Ledger.VerifyChain` | src/operations_center/eval/corpus.py:157-172 | succeeds exactly when every link and hash is right; otherwise names the first wrong entry and which of the two it is |
| `LedgerText.VerifiesLinkByLink` | src/operations_center/eval/corpus.py:157-172 | a ledger verifies exactly when every entry names the hash before it, the first one 64 zeros, and its hash is that of this name and its case's text |
| `LedgerText.HashedText` | src/operations_center/eval/corpus.py:56-93 | the hashed text is the previous hash and a text holding the eight fields of the case and no other |
| `LedgerText.LineText` | src/operations_center/eval/corpus.py:175-190 | a written line holds those fields and the two hashes, key by key |
| `LedgerText.DictionaryLoads` | src/operations_center/eval/corpus.py:114-154 | a dictionary loads exactly when both hashes and all fields of the case are there and of the right kind; missing hashes are reported first |
| `LedgerText.LoadedFields` | src/operations_center/eval/corpus.py:114-124 | what is loaded is what the keys hold, prose defaulting to nothing |
| `Lines.SplitsAtFirst` | src/operations_center/eval/corpus.py:140 | text is split at the first of ten break characters, a carriage return and newline being one; the rest follows |
| `LedgerLines.LineRoundTrip` | src/operations_center/eval/corpus.py:114-124 | loading a written line gives its case and both hashes back |
| `LedgerLines.LineBreaks` | src/operations_center/eval/corpus.py:140 | a written line is one line to the loader exactly when no text in the case holds U+0085, U+2028 or U+2029 |
| `LedgerFile.VerifiesIffChain` | src/operations_center/eval/corpus.py:157-211 | a ledger verifies exactly when it is the chain of its own cases |
| `LedgerFile.RewriteRoundTrip` | src/operations_center/eval/corpus.py:131-211 | what a rewrite wrote loads back as the same cases in a chain that verifies, if and only if the texts are clean; otherwise the file no longer loads |
| `LedgerFile.LedgerFile.WriteLedger` | src/operations_center/eval/corpus.py:193-211 | the file is one newline-terminated line per chained case, and empty for no cases |
| `LedgerFile.LedgerFile.AppendCase` | src/operations_center/eval/corpus.py:175-190 | extends a file that loads and verifies by one line; refuses any other and leaves it unchanged |
| `LedgerFile.AppendsAreARewrite` | src/operations_center/eval/corpus.py:175-211 | appending one by one to an absent file writes the same bytes as a rewrite, if and only if every case before the last is clean |
| `LedgerTail.AppendExtends` | src/operations_center/eval/corpus.py:175-190 | an append to any file that verifies adds exactly its entry and still verifies, if and only if the case is clean and the last line was closed; otherwise the file no longer loads |
| `LedgerTail.OpenTailSpoils` | src/operations_center/eval/corpus.py:175-190 | every clean case, written without its newline, is a file that verifies and that the next append makes unloadable |
| `LedgerTail.WideBreakSpoils` | src/operations_center/eval/corpus.py:175-190 | a case with U+2028 in its prose makes any file that verifies unloadable |
| `TamperEvidence.PayloadInjective` | src/operations_center/eval/corpus.py:78-92 | the printed payload determines the case, and the case the payload |
| `TamperEvidence.HeadDeterminesCases` | src/operations_center/eval/corpus.py:56-59 | two verifying ledgers with one head hash hold the same cases, or two of their own bodies collide, or one hashes to genesis |
| `TamperEvidence.HashesDistinct` | src/operations_center/eval/corpus.py:157-172 | hashes along a verifying ledger are pairwise distinct, with the same proviso |
| `TamperEvidence.DeletionDetected` | src/operations_center/eval/corpus.py:157-172 | deleting one entry still verifies exactly when it was the last, with the same proviso |
| `TamperEvidence.DrawnDetected` | src/operations_center/eval/corpus.py:157-172 | a list drawn from the entries of a verifying ledger, with any deletions, moves and repetitions, verifies exactly when it is a prefix, with the same proviso |
| `TamperEvidence.EditDetected` | src/operations_center/eval/corpus.py:157-172 | a case edited in place still verifies exactly when no value changed, unless the two bodies collide |
| `TamperEvidence.RewriteDetected` | src/operations_center/eval/corpus.py:157-172 | any other history that verifies and ends in the same entry has the same cases, with the same proviso |
| `TamperEvidence.DroppedTailVerifies` | src/operations_center/eval/corpus.py:7-16 | a dropped tail is not detected: what is left is a verifying chain |
| `Signing.SigningBinds` | src/operations_center/eval/signing.py:41-50 | two cases have equal signing bytes exactly when id, kind, input and answer are equal; prose, signature and chain position do not enter |
| `Signing.GradedExactly` | src/operations_center/eval/signing.py:90-104 | a case is graded exactly when a key is anchored and accepts the signature in the case for the case's own signing text |
| `Signing.MovedSignature` | src/operations_center/eval/signing.py:41-104 | a case that carries a signature made for another one is graded exactly when id, kind, input and answer agree, unless the key accepts it for both texts |
| `Signing.ChangedAfterSigning` | src/operations_center/eval/signing.py:41-104 | with a key that accepts no signature for two texts, changing id, kind, input or answer of a signed case un-grades it, and changing none does not |
| `LedgerText.SignedText` | src/operations_center/eval/signing.py:41-50 | the signed text holds id, kind, input and answer and nothing else |
| `Signing.SignedIsGraded` | src/operations_center/eval/signing.py:53-67 | a signed case is graded and differs from the candidate in signature and signer alone |
| `Signing.SignAndRewrite` | src/operations_center/eval/signing.py:53-101 | signing case i and rewriting gives a file that loads to a verifying chain whose graded set is the old one plus i, entries before i untouched |
| `GovernancePolicy.MakeDecision` | src/operations_center/audit_governance/policy.py:295-398 | the decision on any list of results, its priority order, and its reasons in order |
| `GovernancePolicy.ChecksTable` | src/operations_center/audit_governance/policy.py:28-292 | the eight results in order, read off the request and the states |
| `GovernedRuns.Govern` | src/operations_center/audit_governance/policy.py:270-398 | the eight checks and the decision together come to one table on the request and the two states |
| `GovernedRuns.GovernanceState.Run` | src/operations_center/audit_governance/runner.py:131-360 | status, dispatch and both state files after a run, for every approval, clock and dispatch outcome, as the tables of `GovernedRuns.RunTable` and `GovernedRuns.FilesTable`; no high or urgent request dispatches without its own approval |
| `GovernedRuns.RunTable` | src/operations_center/audit_governance/runner.py:131-360 | status and dispatch in one table on the request, the two files and the approval: high and urgent requests wait for a matching approval, lower ones only for missing evidence that is demanded |
| `GovernedRuns.FilesTable` | src/operations_center/audit_governance/runner.py:286-303 | the whole of both state files after any run |
| `GovernedRuns.GovernanceState.IncrementBudget` | src/operations_center/audit_governance/budgets.py:88-107 | inside the period one more run and the same bounds; after it, or without a file, one run in a period that begins now; no other file changes |
| `GovernedRuns.DispatchesExactly` | src/operations_center/audit_governance/runner.py:175-253 | exactly when a run dispatches; high and urgent never without a matching approval; no approval moves a denied or deferred request |
| `GovernedRuns.CooldownKept` | src/operations_center/audit_governance/cooldowns.py:24-43 | over any history an automatically approved run is evaluated at least its cooldown after every earlier recorded run of the same file |
| `GovernedRuns.MayShareExactly` | src/operations_center/audit_governance/budgets.py:20-21 | two repos can share a state file exactly when one id is the other followed by `_` or by something that begins with `__` |
| `GovernedRuns.OthersUntouched` | src/operations_center/audit_governance/cooldowns.py:20-21 | a run leaves the state of every other repo alone whose id does not run into its own |
| `BudgetProtocol.StepKeepsInv` | src/operations_center/audit_governance/budgets.py:61-107 | every step of concurrent runs, the clock and crashes keeps the budget invariant |
| `BudgetExactness.RunAlone` | src/operations_center/audit_governance/runner.py:143-303 | the fine-grained steps of one run, uninterrupted, change the two files as the sequential run does, or not at all when the budget is used up or the cooldown not over |
| `BudgetProtocol.OvershootBounded` | src/operations_center/audit_governance/budgets.py:88-107 | with at most N runs at a time the file never counts above max_runs + N - 1, across rollovers, and no increment is lost |
| `BudgetProtocol.OvershootReached` | src/operations_center/audit_governance/runner.py:143-303 | the bound is reached for every N, without any death when max_runs is one or all but two of max_runs runs fit a cooldown apart in the period, and under any cooldown when processes die between the two updates |
| `BudgetExactness.OneAtATimeExactly` | src/operations_center/audit_governance/runner.py:143-303 | one run at a time and nobody dying, the file counts up to max_runs in some run if and only if max_runs is one or all but two of its runs fit a cooldown apart in the period |
| `BudgetExactness.MovesBackExactly` | src/operations_center/audit_governance/cooldowns.py:72-95 | some run overwrites a last-run time by an older one if and only if two runs can be under way at once and max_runs is positive |
| `Fence.RedactClean` | src/operations_center/injection.py:76-78 | no copy of the nonce is left, not even one that the replacement puts together |
| `Fence.RedactIdentity` | src/operations_center/injection.py:76-78 | redaction changes the text exactly when the nonce occurs in it |
| `Fence.RedactFirst` | src/operations_center/injection.py:76-78 | the first copy of the nonce, and so each in turn, is replaced by the marker and nothing else changes |
| `FenceSearch.LeftmostFence` | src/operations_center/injection.py:143-166 | of a text with fences the leftmost one is taken, up to the first close marker with its nonce and label |
| `FenceSearch.NoFence` | src/operations_center/injection.py:151-166 | a text without a fence is left as it is |
| `Fence.UnfenceWrapped` | src/operations_center/injection.py:69-166 | unfencing a wrapped text gives the text with the nonce redacted, and the text itself exactly when the nonce does not occur, whatever it contains and whatever follows the fence |
| `Sanitize.SubstituteByCharacter` | src/operations_center/injection.py:31 | the scan for mentions and a decision by neighbouring characters agree |
| `Sanitize.NoLiveMention` | src/operations_center/injection.py:194-211 | no live mention in the result for any text and any limit, and no more than max_len characters for a positive one |
| `Sanitize.NoPing` | src/operations_center/injection.py:28-31 | wherever the result has an at sign with a letter or digit behind it, a character that is neither a parenthesis nor one of the listed white space stands in front |
| `Sanitize.HiddenByCodePoint` | src/operations_center/injection.py:26-31 | any of the sixteen hidden code points in the result is a zero-width space between the at sign of a mention and its handle |
| `Sanitize.TextSurvives` | src/operations_center/injection.py:204-211 | text without hidden characters that fits is unchanged but for the separators, and without an at sign wholly |
| `Sanitize.CutTells` | src/operations_center/injection.py:204-211 | text too long becomes a prefix of the defanged text, less trailing white space, and an ellipsis |
| `Sanitize.OnlySeparatorsHidden` | src/operations_center/injection.py:28-31 | the only hidden character left is the separator behind an at sign |
| `Sanitize.IdempotentExactly` | src/operations_center/injection.py:194-211 | a second application changes nothing, if and only if the truncation did not cut right behind a separator |
| `Sanitize.NotIdempotent` | src/operations_center/injection.py:194-202 | the documented idempotence fails on `@ab` with limit 3 |
| `InFlight.OpenInFlight` | src/operations_center/in_flight_reconcile.py:71-102 | the loop over the events computes the fold, insertion order included |
| `InFlight.OpenExactly` | src/operations_center/in_flight_reconcile.py:71-102 | a slot is open exactly when an in-window start has no later in-window finish in the list |
| `InFlight.OpenByEvents` | src/operations_center/in_flight_reconcile.py:71-102 | the same read off kind, timestamp, task and backend of the events |
| `InFlight.TerminalExactly` | src/operations_center/in_flight_reconcile.py:38-46 | a task is over in four states, in any case of letters and with white space around them |
| `InFlight.OpenKeepsLastStart` | src/operations_center/in_flight_reconcile.py:96-101 | the event kept for an open slot is its last in-window start |
| `InFlight.FindOrphaned` | src/operations_center/in_flight_reconcile.py:105-148 | the open slots whose task is missing or terminal, in dictionary order; nothing is concluded from an error |
| `InFlight.OrphanTells` | src/operations_center/in_flight_reconcile.py:119-147 | an orphan reports its slot, its start time, and that its task is missing or which final state it is in |
| `InFlight.UsageStore.ClearOrphaned` | src/operations_center/in_flight_reconcile.py:151-189 | one result per orphan, and the log grows by one finish for each orphan that could be recorded |
| `InFlight.FinishingTells` | src/operations_center/in_flight_reconcile.py:151-189 | the events a clear adds are finishes at its own time, one for each recordable slot with its backend and task |
| `InFlight.ClearTouchesOnlyOrphans` | src/operations_center/in_flight_reconcile.py:151-189 | for any cutoff up to now, exactly the recorded orphans close and every other open slot keeps its start event |
| `InFlight.RescanFindsFailures` | src/operations_center/in_flight_reconcile.py:105-189 | a rescan at the time of the clear, with unchanged tasks, finds exactly the orphans whose recording failed |
| `InFlight.LaterRescan` | src/operations_center/in_flight_reconcile.py:105-189 | at any later cycle, whatever was recorded since, an orphan is one whose recording failed or one started since, if no start of the slot is stamped later than a finish behind it |
| `InFlight.ReturnsExactly` | src/operations_center/in_flight_reconcile.py:105-189 | in any log, a cleared slot becomes an orphan again at some later cycle exactly when a start of it is stamped after the clear and later than every finish behind it |
| `InFlight.OpenFromExactly` | src/operations_center/in_flight_reconcile.py:71-102 | in any log, a slot is open at this cutoff or a later one if and only if a start of it at or after this cutoff is stamped later than every finish behind it |
| `InFlight.OnlyShrinksExactly` | src/operations_center/in_flight_reconcile.py:71-102 | in any log, a slot open at a later cutoff is open at every earlier one if and only if each start that is later than the finishes behind it, the latest at t, is bridged by a start at or after t with only finishes before t behind it |
| `InFlight.LaterCutoff` | src/operations_center/in_flight_reconcile.py:71-102 | the open set only shrinks as the cutoff advances where no start of a slot is stamped later than a finish behind it; the exact condition is that of OnlyShrinksExactly |
| `InFlight.LaterCutoffReopens` | src/operations_center/in_flight_reconcile.py:71-102 | without that order a closed slot can open again |
| `Panel.MostCommon` | src/operations_center/eval/critic.py:79 | the first key in insertion order with the highest count |
| `Panel.MajorityIsMostFrequent` | src/operations_center/eval/critic.py:72-82 | of votes whose results hold no bar and whose checks are non-empty without commas, the majority is the answer given most often, agreement is how often, and of equally frequent ones it came up first |
| `Panel.CommasMerge` | src/operations_center/eval/critic.py:77 | without that, different verdicts are tallied as one |
| `Panel.VotesTell` | src/operations_center/eval/critic.py:75-84 | the votes are the extractor's verdicts in order and the expected answer the signed one, each with its checks in code-point order |
| `Panel.RunDriftMonitor` | src/operations_center/eval/critic.py:60-88 | one report per case: the votes' majority, its count, and drift exactly when it is not the answer |
| `Panel.RunPanelDriftMonitor` | src/operations_center/eval/panel_critic.py:56-129 | one report per case with every family's own majority and the pooled one |
| `Panel.PanelFlagsExactly` | src/operations_center/eval/panel_critic.py:104-113 | the panel flags a case exactly when some family's monitor alone flags it |
| `Panel.PooledIsSum` | src/operations_center/eval/panel_critic.py:94-101 | the pooled tally is the sum of the families' tallies |
| `Panel.PooledTell` | src/operations_center/eval/panel_critic.py:88-101 | the pool holds every family's votes, behind those of the families before it |
| `Panel.PooledAgreement` | src/operations_center/eval/panel_critic.py:110 | pooled agreement is at least every family's |
| `Panel.OneFamilyPanel` | src/operations_center/eval/panel_critic.py:82-129 | a panel of one family returns the single monitor's report, ties included |
| `Panel.UndriftedPanel` | src/operations_center/eval/panel_critic.py:103-113 | when no family drifts the pooled majority is the signed answer too, whatever the ties |
| `BackendHealth.BackendHealthRegistry.RecordSuccess` | src/operations_center/backend_health/registry.py:100-123 | the whole new record after a success; other backends keep theirs |
| `BackendHealth.BackendHealthRegistry.RecordFailure` | src/operations_center/backend_health/registry.py:125-178 | the whole new record after a failure; a cooldown is applied exactly on SIGKILL |
| `BackendHealth.Independent` | src/operations_center/backend_health/registry.py:97-219 | a backend's record depends on its own events alone |
| `BackendHealth.HistoryKept` | src/operations_center/backend_health/registry.py:97-219 | recoveries started, the last failure, and the state as the last event unless that was a failure, over any history |
| `BackendHealth.AnyRunTells` | src/operations_center/backend_health/registry.py:97-219 | after any operations: failures since the last success, cooldown set exactly when one was a SIGKILL and running from the latest, healthy exactly when the last event was a success |

## Left out

- Real file systems, `fcntl`, signals, subprocesses and clocks: they are atomic steps and explicit arguments here. `execute` returns only after its child is reaped; an exception other than the timeout out of `proc.wait` is not part of the protocol.
- The status cascade of `dispatch_managed_audit` after the lock is released, contract discovery, log files, and the kill sequence after a timeout (an audit may exit at any moment).
- `unlock --force`, repo ids with a dot (which the sweep skips), lock files that parse but lack fields, and locking across hosts or on Windows.
- The fields of a lock payload nothing decides on (command, host, times).
- DecisionService.Decide: the decision rules, the proposal results and the usage store are outside; specs, stale keys, recent counts and remaining capacity are parameters of a run, and the record of a budget suppression is not kept. Insight loading and artifact writing.
- Prose and evidence fields of candidates, decisions, reports and reasons: a reason is represented by the check or gate that gives it.
- Floats, lone surrogates, surrogate-pair escapes and numbers beyond the interpreter's digit limit in JSON texts; such texts do not parse here.
- Ledger.LoadLedger: `_case_from_payload` turns any id, kind or prose into text and ignores unknown fields; here a field of another type makes the line malformed, and unknown fields are ignored too.
- File encoding errors, and the internals and key formats of SHA-256 and Ed25519. Signing bytes are the text before its UTF-8 encoding, which is injective.
- Governance runs in which loading or updating a state file raises: the checks model an absent state, the runs take success as given. Coverage analysis and report writing.
- BudgetProtocol.OvershootReached: for several runs at a time the condition without deaths is enough, not necessary, because concurrent waves can fill the budget sooner; the exact maximum is proved for one run at a time alone (BudgetExactness.OneAtATimeExactly). A dispatch in the run that is built takes no time.
- BudgetProtocol.OvershootBounded: concerns runs without a manual approval; a run with an approval increments whatever the budget said.
- Fence.UnfenceWrapped: the prose of the preambles is any text without an angle bracket around the two example markers, rather than the program's three literals.
- `goal_summary`, and `sanitize_for_comment` with a limit below one for idempotence (the mention theorem covers every limit).
- Parsing of failure reasons into signals and exit codes; a failure carries its signal. Of issue states, the ASCII letters are lowered, which is all that matters for the four terminal names.
- `reconcile_in_flight_on_startup`, a lock around one applied clear.
- `compute_verdict` and the extractors: an arbitrary function from a case and a vote to a verdict.
- Maintenance windows, heartbeats, artifact queries, tier tables, command lines, network clients and settings: they would add only easy members.
