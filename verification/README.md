# Runtime adapters: a verified model

This project models the execution runtime's hard parts in Dafny 4.11 and proves what its documentation promises
of them, over every input and every interleaving. `dafny verify dfyconfig.toml` checks all of it.

## What is modelled

**The execution protocol.** `Protocol` is a transition system: any number of concurrent `Execute` calls, each a
program counter over the numbered steps of `Execute` and `persistStructural`, share the concurrency limiter, the
idempotency keys, the insert-only receipt repository and the metric counters. Every event is one atomic action of
one call; store failures with or without effect, panics, expiry and the assembled receipt are nondeterministic
choices carried by the event. `Accounting`, `Replay`, `Dedup`, `DedupSharp` and `HonestRuns` prove the results
about whole runs. `Execution` is the service itself: a limiter, two stores and counters updated in place in the
source's order. Its `Valid()` says that what it has done so far *is* a run of the protocol in which every receipt
is one the service assembles, so each result about runs holds of the object (`Guarantees`).

**Results.** `Domain` holds `NewExecutionResult`, `NewStreamRef` and artifacts, `Normalizers` the nine production
normalizers, `Assembly` steps 7b to 9: classification, normalization, receipt.

**Stores.** `Stores` holds the in-memory stores, `PgRecord` the two-statement PostgreSQL `Record` under interleaving.

**Smaller cores.** `WriteFile` (temporary file, fsync, rename, under failures, deaths and crashes), `LinearLifecycle`,
`LinearRace` and `LinearLabels` (issue lifecycle one event at a time and interleaved, label query-or-create), `Ulids` (streaming base-32 packer), `Capabilities`
(canonical printer, parsers, registry), `Chaos` (profile validation against dispatch), `RingBuffer`, `TraceIds`,
`Timeouts` (milliseconds to nanoseconds in wrapping int64). `Counting` counts calls with a property.

## Reading the model

- Strings are sequences of bytes. Times are integers; 0 is Go's zero time where the source asks `IsZero`.
  Durations are nanoseconds, with int64 wrap-around written out where milliseconds are multiplied.
- What the source gets from outside (clock, ids, entropy, adapter, context, store and API answers, map iteration
  order, file existence) is a parameter or an event field. The texts of error messages are shortened, never empty
  where the source's are not.
- A store or API call that reports failure may still have taken effect. A panic that nobody recovers before Save
  is the protocol's `FailedEarly`, with the deferred calls still run. Metrics are taken to be wired.
- `Record`'s error is ignored by `Execute`, and a `Lookup` error (not a panic) is a miss: the model follows the code.
- `Lookup` is one atomic read: rows are inserted and never deleted by this program. Service and database share one
  clock in the model.

## Where the code is weaker than its comments

- An expired key row still blocks `Record`: `Replay.KeysAreWriteOnce`, `DedupSharp.ExpiryLosesDedup`.
- `inUse` can exceed the capacity between two halves of `Release`: `Accounting.InUseCanExceedMax`.
- `NewExecutionResult` accepts timeout and cancelled classes on failures: `Domain.BuildMeetsStatusTableIff`,
  `Domain.BuildAcceptsFailureWithTimeoutClass`. The documentation counts seven classes for failure and partial; the
  code has ten, so eight remain without timeout and cancelled.
- An inline stream may be shorter than its stated size: `Domain.InlineStreamIsCompleteIff`.
- A decoded handle trusts its separate adapter field: `Capabilities.DecodeKeepsCanonicalIff`,
  `Capabilities.DecodeAcceptsForeignAdapter`.
- A millisecond budget may wrap to a small positive one: `Timeouts.WrappedBudgetAccepted`.
- `overwrite=false` is checked, then forgotten, and a failed check counts as a free path: `WriteFile.ClobbersIff`,
  `WriteFile.BothClaimAFreePath`, `WriteFile.FailedCheckClobbers`.
- A successful write, commit, worktree or clone drops an artifact whose values exceed 2 KiB:
  `Normalizers.WriteReportsIff`, `Normalizers.LongPathReportsNothing`.
- `persist_failure` under an adapter passes the loader and the support check:
  `Chaos.LoaderAcceptsMisplacedPersistFailure`, `Chaos.AcceptedProfileIsDispatchable`.
- Handlers that query before any of them creates each open an issue: `LinearLifecycle.RacingFirings`,
  `LinearRace.OverlapAttained`; `LinearRace.OpenWithinOverlap` says how many at most.

## Model

| member | source | states |
|---|---|---|
| `Dedup.DispatchBound` | internal/application/services/execute_service.go:154-181 | In every interleaving, while a key has not expired, its adapter dispatches number at most the dispatching calls that ever overlapped with that key, plus the dispatches whose own store access or receipt assembly failed; calls with the key that never dispatch, or that failed, may overlap freely |
| `Dedup.AtMostMaxDispatches` | internal/application/services/execute_service.go:141-181 | Without such failures a key is dispatched at most limiter-capacity times before it expires, whatever the schedule |
| `Dedup.ExactlyOnceWithoutOverlap` | internal/application/services/execute_service.go:411-423 | If the calls that dispatch a key never overlap, it is dispatched at most once, and exactly once when it is recorded |
| `DedupSharp.MaxDispatchesAttained` | internal/application/services/execute_service.go:141-181 | The bound is sharp: for every capacity some run dispatches one unexpired key that many times with no failure at all |
| `DedupSharp.ExpiryLosesDedup` | internal/ports/outbound/testdoubles/in_memory_idempotency_store.go:72-82 | After expiry one slot suffices for two dispatches with no store failure: the second call saves and returns its own receipt while the stale row still maps the key to the first |
| `Replay.RecordedKeysAreReal` | internal/application/services/execute_service.go:411-423 | In every reachable state a recorded key maps to a saved receipt whose request carries that key and whose author dispatched to an adapter exactly once, so structural failures are never cached |
| `Replay.ReplayNeverDangles` | internal/application/services/execute_service.go:177-180 | A cached id always names a stored receipt, so a replay with a readable store returns it |
| `Replay.ReplaysAgree` | internal/application/services/execute_service.go:177-180 | Any two replays of one key in one run return the same receipt, and it carries the key |
| `Replay.ReturnedReceiptsArePersisted` | internal/application/services/execute_service.go:375-405 | A receipt handed to a caller is in the repository, unchanged, for ever after |
| `Replay.StoredAsAssembled` | internal/domain/execution/entities/receipt.go:155-159 | In every reachable state a stored receipt is, but for its persistence time, the receipt its author assembled |
| `Replay.KeysAreWriteOnce` | internal/ports/outbound/testdoubles/in_memory_idempotency_store.go:63-88 | A key's row never changes along any run, and a key that no longer answers never answers again |
| `Replay.StoreInvStep` | internal/application/services/execute_service.go:129-445 | Every protocol step preserves the store invariant and only ever extends keys, receipts and authorship |
| `Accounting.LimiterSafety` | internal/application/services/concurrency.go:46-74 | Occupied slots equal the calls holding one and never exceed max; inUse differs from them exactly by the half-done acquires and releases and is within max plus releases in progress; active is within the slots; no Release blocks |
| `Accounting.InUseCanExceedMax` | internal/application/services/concurrency.go:63-66 | Some reachable state has inUse above the capacity |
| `Accounting.CounterConservation` | internal/application/services/execute_service.go:361-405 | In every reachable state: total and persist.failures equal the Saves that succeeded and failed up to the calls about to count, and completed calls, with those that only have deferred calls left after being counted, equal rejects + replays + total + failures + early errors |
| `Accounting.QuietConservation` | internal/application/services/execute_service.go:430-441 | With no call in flight the counters are exact, limiter and active are back to zero, and every call is accounted for by exactly one of the five |
| `Accounting.SaveAtMostOnce` | internal/application/services/execute_service.go:375-405 | No call saves or dispatches twice; a finished call returned a receipt exactly when its Save succeeded |
| `Accounting.BooksStep` | internal/application/services/execute_service.go:141-147 | Every step keeps all slot and counter equations and the agreement of each call's program point with its history |
| `HonestRuns.EveryReceiptIsSound` | internal/application/services/execute_service.go:243-405 | In every interleaving every stored receipt, dispatched or structural, meets the status/class table, the size caps, the partial rule and the exact hint: the default of its class, except retryable for an http result whose recorded status is a 5xx |
| `HonestRuns.EveryReceiptIsTheServicesOwn` | internal/application/services/execute_service.go:232-405 | In every interleaving a stored receipt, its persistence time aside, is what the service computes for its author's request: from some behaviour of adapter, context and normalizer if the author dispatched, as a structural receipt otherwise |
| `HonestRuns.DispatchedMeansOneSave` | internal/application/services/execute_service.go:232-405 | With a monotone clock, valid ids and submitted_at, a finished call that dispatched attempted exactly one Save, whatever adapter, context and normalizer did, and returned a receipt exactly when it succeeded |
| `Guarantees.ServiceIsSafe` | internal/application/services/execute_service.go:129-445 | For the service object after any calls: limiter within capacity, active within the limiter, every stored receipt sound, every key backed by a receipt carrying it |
| `Execution.ConcurrencyLimiter.constructor` | internal/application/services/concurrency.go:33-41 | A new limiter is empty |
| `Execution.ConcurrencyLimiter.TryAcquire` | internal/application/services/concurrency.go:46-54 | Succeeds exactly below capacity, taking one slot and one count, and otherwise changes nothing |
| `Execution.ConcurrencyLimiter.Release` | internal/application/services/concurrency.go:63-66 | Gives one slot and one count back |
| `Execution.ExecuteService.Execute` | internal/application/services/execute_service.go:129-445 | From any reachable state the call ends as a run of the protocol with limiter and active restored; rejected exactly when full; replays exactly on a live answered key, with that key's receipt; dispatches exactly once iff neither rejected nor replayed, the lookup did not panic, the capability is registered, some timeout is positive, the handle was built and the adapter is there, and otherwise not at all; a returned receipt is stamped now and is what the assembly rules prescribe, without a dispatch a non-retryable failure of the first obstacle's class; each counter moves by its outcome; the repository gains exactly a returned receipt; only a dispatch can touch the keys |
| `Execution.ExecuteService.PersistStructural` | internal/application/services/execute_service.go:477-575 | Saves the structural receipt or fails, settling counters and repository by the outcome and never recording a key |
| `Execution.ExecuteService.Persist` | internal/application/services/execute_service.go:353-444 | Returns exactly the given receipt, stamped now, exactly when Save acknowledged a fresh id; records the key only after a dispatch, first writer wins |
| `Execution.ExecuteService.RunAdapter` | internal/application/services/execute_service.go:226-351 | Bumps active, dispatches once, and ends with the receipt the assembly rules prescribe for what the environment did |
| `Execution.ExecuteService.ExecuteMissed` | internal/application/services/execute_service.go:183-444 | After a miss: either the adapter path with one dispatch or the structural path with none and the keys untouched |
| `Execution.ExecuteService.ExecuteHolding` | internal/application/services/execute_service.go:149-181 | With a slot held: replay exactly on a live answered key, structural on a lookup panic, otherwise the miss path |
| `Execution.ExecuteService.ResolveRequest` | internal/application/services/execute_service.go:183-221 | Goes on to the adapter exactly when the canonical is registered, one of budget, default and maximum is positive, the handle was built and the adapter is configured; otherwise the cause is unknown capability, validation failure, internal error or unknown capability, by the first of these that fails |
| `Protocol.ObstacleIff` | internal/application/services/execute_service.go:183-221 | The protocol's resolution step meets exactly those conditions and causes, in that order |
| `Execution.ExecuteService.Leave` | internal/application/services/execute_service.go:147-230 | The deferred calls undo exactly what was acquired |
| `Assembly.ClassifyReturn` | internal/application/services/execute_service.go:243-251 | A context error outranks any return, a panic becomes a bounded panic outcome, a bare error a structural one, an error beside a raw outcome is ignored |
| `Assembly.Reclassify` | internal/application/services/structural.go:66-103 | The reassigning code computes that classification |
| `Assembly.BuildResult` | internal/application/services/execute_service.go:271-344 | The switch with its recovered normalizer panic and its two fallbacks computes the specified result |
| `Assembly.ResultRefusedIff` | internal/application/services/execute_service.go:271-344 | A result is refused exactly when nothing was normalized and the clock ran backwards or the normalizer's error was empty |
| `Assembly.AssembleReceipt` | internal/application/services/execute_service.go:232-351 | Steps 7b to 9 as run compute the specified receipt or error |
| `Assembly.AssembleStructuralReceipt` | internal/application/services/execute_service.go:483-509 | The structural receipt for the request, with the placeholder capability when the name is unusable |
| `Assembly.AssemblyReachesSaveIff` | internal/application/services/execute_service.go:232-351 | A dispatched execution of any capability reaches Save exactly when its id is a ULID, submitted_at is set, and time did not run backwards unless a result was normalized anyway |
| `Assembly.ReceiptTellsWhatHappened` | internal/application/services/execute_service.go:243-351 | Status, class, hint and message case by case: deadline, cancellation, panic with the bounded stack, bare error, normalizer panic, nothing at all, and otherwise the normalizer's answer even beside an error |
| `Assembly.ReceiptCarries` | internal/application/services/execute_service.go:232-351 | The receipt carries the generated id, the request, the capability and the times of the dispatch; a result of the service's own making has the dispatch's end and duration |
| `Assembly.DispatchedReceiptIsSound` | internal/application/services/execute_service.go:271-351 | Whatever adapter, context and normalizer did, the receipt is sound, unsaved, and carries the request |
| `Assembly.StructuralReceiptIsSound` | internal/application/services/execute_service.go:483-509 | So is every structural receipt, for each cause the service uses |
| `Assembly.StructuralReceiptIs` | internal/application/services/execute_service.go:483-509 | Assembled exactly with a message, a handle, a ULID and a submission time; then a non-retryable failure of the cause, on the request's capability or the placeholder |
| `Assembly.KindOfCapabilities` | internal/domain/execution/services/result_normalizer.go:64-98 | Each of the nine canonical strings has its own normalizer |
| `Assembly.KindOfOthers` | internal/domain/execution/services/result_normalizer.go:83-98 | No other string has one |
| `Normalizers.NormalizersAreSound` | internal/domain/execution/services/result_normalizer.go:83-98 | For every raw outcome of all nine normalizers: full status/class table, 4 KiB, 8 KiB and stream caps, partial only for a clone with artifacts, and the hint exactly the default of the class, except that an http external failure is retryable exactly when its recorded status is a 5xx; their errors are never empty |
| `Normalizers.HttpHintIff` | internal/adapters/outbound/httpreq/normalize.go:18-107 | An external http failure is retryable exactly for a 5xx response |
| `Normalizers.StatusIsRecorded` | internal/adapters/outbound/httpreq/normalize.go:56-65 | No response header overwrites the recorded status, and it reads as a 5xx exactly when the response was one |
| `Normalizers.ServerTextIff` | internal/adapters/outbound/httpreq/normalize.go:89-96 | For every integer, the printed status has three characters starting with 5 exactly for 500 to 599 |
| `Normalizers.HttpSuccessIff` | internal/adapters/outbound/httpreq/normalize.go:18-107 | Success exactly when nothing preempted and the status is an expected one, or 2xx when none is given |
| `Normalizers.ExecSuccessIff` | internal/adapters/outbound/shell/normalize.go:18-89 | Success exactly when the exit code is accepted; the run error is not consulted |
| `Normalizers.ClonePartialIff` | internal/adapters/outbound/git/normalize.go:83-206 | Partial exactly when no context or validation error came first, it is allowed, the checkout is incomplete, and the clone left a directory that exists, a head or a ref, of at most 2 KiB |
| `Normalizers.ContentIsKept` | internal/adapters/outbound/filesystem/normalize.go:16-66 | A successful read, diff or http result shows a prefix of the content, all of it when it fits, and its true size |
| `Normalizers.ShellStreamsAreKept` | internal/adapters/outbound/shell/normalize.go:18-105 | Each stream comes from its own pipe, whole when it fits, with the exit code |
| `Normalizers.ContextErrorTells` | internal/adapters/outbound/git/normalize.go:28-42 | Every normalizer puts a context error first: timeout exactly for a deadline, cancelled for any other, with its text |
| `Normalizers.ValidationTells` | internal/adapters/outbound/git/normalize.go:44-50 | Then a validation error, final, with its text |
| `Normalizers.RunErrorTells` | internal/adapters/outbound/filesystem/normalize.go:97-103 | Then the adapter's error as it is, except for the shell and for a clone, which keeps it at the end of its message |
| `Normalizers.CloneSuccessIff` | internal/adapters/outbound/git/normalize.go:149-156 | A clone succeeds exactly when partial results are allowed and the checkout is complete |
| `Normalizers.TimesAreKept` | internal/adapters/outbound/shell/normalize.go:18-89 | Every result carries the adapter's duration and the normalizer's clock |
| `Normalizers.StatusTells` | internal/adapters/outbound/git/normalize.go:62-78 | A status result read back gives branch, head, cleanliness and the number of entries |
| `Normalizers.ReaderTells` | internal/adapters/outbound/filesystem/normalize.go:52-66 | A diff or file result read back gives truncation and full size |
| `Normalizers.WriteTells` | internal/adapters/outbound/filesystem/normalize.go:105-130 | A write result read back gives path, size, checksum and mode |
| `Normalizers.CloneTells` | internal/adapters/outbound/git/normalize.go:149-206 | Past validation a clone reports its artifacts, how far it got, and path, ref and head exactly when known |
| `Normalizers.CommitTells` | internal/adapters/outbound/git/normalize.go:299-330 | A commit result names the commit and the branch |
| `Normalizers.WorktreeTells` | internal/adapters/outbound/git/normalize.go:371-418 | A worktree result names path and head, and the branch exactly when given |
| `Normalizers.HttpTells` | internal/adapters/outbound/httpreq/normalize.go:54-107 | An http response, accepted or not, shows meta, size and a prefix of its body; a refused one names its status |
| `Normalizers.HttpMetaTells` | internal/adapters/outbound/httpreq/normalize.go:56-65 | The meta read back gives status, truncation, size and redirects, and every header under its prefixed name |
| `Normalizers.ExitCodeIsNamed` | internal/adapters/outbound/shell/normalize.go:80-89 | A refused exit code is an external failure that names it |
| `Normalizers.DecimalReads` | internal/adapters/outbound/httpreq/normalize.go:56-61 | Reading a printed number gives it back, for every integer |
| `Normalizers.OctalReads` | internal/adapters/outbound/filesystem/normalize.go:111-114 | Reading a printed mode gives it back |
| `Normalizers.Classify` | internal/domain/execution/entities/partial_rule.go:26-40 | Partial and success exactly under their documented conditions |
| `Normalizers.NormalizeClone` | internal/adapters/outbound/git/normalize.go:83-206 | The branches, artifact appends and meta updates build the specified result |
| `Normalizers.CollectCloneArtifacts` | internal/adapters/outbound/git/normalize.go:112-147 | Something is reported exactly when the directory was written and exists, or a head or a ref is known, with values of at most 2 KiB |
| `Normalizers.CloneReportsIff` | internal/adapters/outbound/git/normalize.go:112-147 | Since the constructor's error is dropped: each artifact kind is reported exactly when its values fit 2 KiB, at the place and with the attributes it should have |
| `Normalizers.CommitReportsIff` | internal/adapters/outbound/git/normalize.go:299-330 | The same for commits, never a directory |
| `Normalizers.WorktreeReportsIff` | internal/adapters/outbound/git/normalize.go:371-418 | The same for worktrees |
| `Normalizers.WriteReportsIff` | internal/adapters/outbound/filesystem/normalize.go:105-130 | The artifact list of a successful write, exactly |
| `Normalizers.LongPathReportsNothing` | internal/adapters/outbound/filesystem/normalize.go:105-130 | Every path longer than 2 KiB and shorter than 8 KiB is written successfully without an artifact |
| `Normalizers.NormalizeCommit` | internal/adapters/outbound/git/normalize.go:263-330 | A successful commit reports the commit, and on a branch the ref, exactly when sha and branch together fit 2 KiB |
| `Normalizers.NormalizeWorktree` | internal/adapters/outbound/git/normalize.go:335-418 | A successful worktree reports its directory, head and branch each exactly when it is there and fits 2 KiB |
| `Normalizers.NormalizeWrite` | internal/adapters/outbound/filesystem/normalize.go:69-130 | A successful write reports its file with size and checksum exactly when mode and path fit 2 KiB, and nothing else |
| `Normalizers.NormalizeExec` | internal/adapters/outbound/shell/normalize.go:18-89 | The exit-code search and the five constructor calls build the specified result |
| `Normalizers.NormalizeHttp` | internal/adapters/outbound/httpreq/normalize.go:18-107 | Header loop, status search and hint choice build the specified result |
| `Normalizers.AddHeaders` | internal/adapters/outbound/httpreq/normalize.go:56-65 | In any iteration order the meta ends as the own keys overlaid by every prefixed header |
| `Normalizers.ContainsCode` | internal/adapters/outbound/shell/normalize.go:61-67 | The search finds a code exactly when it is listed |
| `Normalizers.RunNormalizer` | internal/domain/execution/services/result_normalizer.go:83-98 | Dispatch by capability computes the specified result, or an error for a missing normalizer or a foreign raw outcome |
| `Domain.NewExecutionResult` | internal/domain/execution/entities/result.go:64-166 | The summing and truncating constructor returns what its checks prescribe, independent of map order |
| `Domain.BuildMeetsStatusTableIff` | internal/domain/execution/entities/result.go:78-100 | An accepted result meets the documented table exactly unless a failure or partial carries timeout, cancelled or an undeclared class |
| `Domain.BuildAcceptsFailureWithTimeoutClass` | internal/domain/execution/entities/result.go:91-98 | A failure with class timeout is accepted |
| `Domain.RebuildIsIdentity` | internal/domain/execution/entities/result.go:103-166 | An accepted result holds every argument in its own place: rebuilding it from its fields gives it back; only the message's tail and a fraction of a millisecond are dropped |
| `Domain.BuildAcceptsIff` | internal/domain/execution/entities/result.go:77-166 | Exactly the arguments the constructor accepts, and the message cut at 4096 bytes |
| `Domain.BuildKeeps` | internal/domain/execution/entities/result.go:140-166 | An accepted result carries every argument in its own place |
| `Domain.DefaultHintTable` | internal/domain/execution/valueobjects/error_class.go:72-84 | The default hint of every class: retryable exactly for timeout and interrupted, unknown exactly for external failures and undeclared or missing classes |
| `Domain.SumValueBytes` | internal/domain/execution/entities/result.go:118-121 | The loop computes the order-independent total of the value sizes |
| `Domain.ValueBytesRemove` | internal/domain/execution/entities/result.go:118-121 | Any key may be counted first |
| `Domain.NewArtifact` | internal/domain/execution/entities/artifact.go:72-98 | Accepts exactly non-empty URIs, non-negative sizes and attributes within 2 KiB |
| `Domain.NewStreamRef` | internal/domain/execution/entities/stream_ref.go:42-73 | Keeps a prefix within the inline limit and the true size; truncated exactly above the limit |
| `Domain.InlineStreamIsCompleteIff` | internal/domain/execution/entities/stream_ref.go:55-58 | An inline stream is complete exactly when the caller passed all of it |
| `Domain.StripStreams` | internal/domain/execution/entities/result.go:171-175 | Drops both streams and nothing else, keeping the table |
| `Domain.Truncate` | internal/application/services/structural.go:140-151 | A bounded prefix, whole when it fits, never emptied |
| `Stores.InMemoryIdempotencyStore.Lookup` | internal/ports/outbound/testdoubles/in_memory_idempotency_store.go:43-58 | Answers a key exactly while its window is open |
| `Stores.InMemoryIdempotencyStore.Record` | internal/ports/outbound/testdoubles/in_memory_idempotency_store.go:63-88 | An absent key is entered with its receipt and now plus window; a present one is left as it is, whatever its age, with a conflict exactly for another receipt |
| `Stores.InMemoryReceiptRepository.Save` | internal/ports/outbound/testdoubles/in_memory_receipt_repository.go:37-50 | Inserts exactly a fresh id, the receipt unchanged but for its persistence time, or changes nothing |
| `Stores.InMemoryReceiptRepository.FindByID` | internal/ports/outbound/testdoubles/in_memory_receipt_repository.go:53-64 | Finds exactly the stored receipt |
| `PgRecord.PgRecordLinearizes` | internal/adapters/outbound/pg/idempotency_store.go:59-101 | In every deletion-free interleaving with faults, the table is what atomic first-writer-wins Records in INSERT order give; each nil or conflict answer is the atomic answer at a place inside the call's interval; no call takes effect twice and no operation is invented |
| `PgRecord.RealTimeOrder` | internal/adapters/outbound/pg/idempotency_store.go:59-101 | A call that answered before another was invoked comes first in that order |
| `PgRecord.RecordInOrder` | internal/ports/outbound/testdoubles/in_memory_idempotency_store.go:63-88 | The in-memory store fed the operations in order reaches exactly that table and those answers |
| `PgRecord.DeletionBreaksIt` | internal/adapters/outbound/pg/idempotency_store.go:86-91 | With a deletion between the statements Record answers nil for a receipt that no order of the two would accept and leave absent |
| `PgRecord.IdempotencyStorePG.Record` | internal/adapters/outbound/pg/idempotency_store.go:59-101 | One call alone: the in-memory Record, with a failed statement possibly having inserted |
| `PgRecord.AloneAsRecorded` | internal/adapters/outbound/pg/idempotency_store.go:59-101 | A call whose two statements nobody comes between enters a new key with now plus window and answers nil, conflict or an error exactly as stated |
| `PgRecord.IdempotencyStorePG.Lookup` | internal/adapters/outbound/pg/idempotency_store.go:35-52 | Answers a key exactly while its window is open; fails exactly when the query does or a live row holds a malformed receipt id |
| `WriteFile.TargetIsWhole` | internal/adapters/outbound/filesystem/write.go:56-78 | Under any interleaving, failures, deaths and crashes the target is the initial content or the complete data of the writer whose rename is the last in effect |
| `WriteFile.FailureLeavesNothing` | internal/adapters/outbound/filesystem/write.go:56-78 | A failed or refused call has no part in the target and leaves no temporary file unless removing it failed; neither does a successful one |
| `WriteFile.OnlyRenameTouchesTarget` | internal/adapters/outbound/filesystem/write.go:75-78 | No step but a successful rename, which shows the writer's complete data, or a crash changes the target |
| `WriteFile.ClobbersIff` | internal/adapters/outbound/filesystem/write.go:45-49 | With overwrite=false a writer replaces a file exactly when another renamed between its check and its rename, or a file was there and the check itself failed |
| `WriteFile.FailedCheckClobbers` | internal/adapters/outbound/filesystem/write.go:45-49 | A lone writer with overwrite=false whose existence check fails replaces the initial file |
| `WriteFile.BothClaimAFreePath` | internal/adapters/outbound/filesystem/write.go:45-49 | Two such writers can both succeed, the second over the first |
| `WriteFile.InvStep` | internal/adapters/outbound/filesystem/write.go:45-87 | Every step and crash keeps ownership and progress of temporary files and the wholeness of every rename |
| `WriteFile.Folder.WriteFile` | internal/adapters/outbound/filesystem/write.go:45-87 | The procedure, from any reachable directory: refused and written exactly under their conditions, complete data on success, target untouched otherwise, no temporary file left unless removal failed |
| `WriteFile.Folder.Fill` | internal/adapters/outbound/filesystem/write.go:61-74 | Write, fsync and close bring the temporary file to the complete synced data or fail with the rest of the directory untouched |
| `WriteFile.Folder.CreateTemp` | internal/adapters/outbound/filesystem/write.go:45-60 | Check, cancellation and exclusive creation decide exactly as stated, touching nothing else |
| `LinearLifecycle.NeverTwoOpen` | internal/integrations/linear/application/lifecycle.go:73-180 | Any sequence of events, repeated and with calls failing with or without effect, keeps at most one open issue per dedup label |
| `LinearLifecycle.SuccessSettles` | internal/integrations/linear/application/lifecycle.go:73-161 | A firing that reports success leaves exactly one open issue, with the event's body; a resolution leaves none |
| `LinearLifecycle.DuplicatesDrain` | internal/integrations/linear/application/lifecycle.go:138-180 | n successful resolutions of k open duplicates leave k - n (or none), and everything closed is at least as new as everything left |
| `LinearLifecycle.StrangersUnchanged` | internal/integrations/linear/application/lifecycle.go:73-161 | Issues without the events' labels never change |
| `LinearLifecycle.HandleTouchesOnlyItsLabel` | internal/integrations/linear/application/lifecycle.go:73-161 | One event changes and creates only issues with its own label, never their labels or creation time |
| `LinearLifecycle.OpenAfterFiring` | internal/integrations/linear/application/lifecycle.go:73-136 | The open set afterwards, exactly, by what was found and whether the create had effect |
| `LinearLifecycle.CreatedIssueIs` | internal/integrations/linear/application/lifecycle.go:94-110 | A created issue is open, uncommented, labelled and carries the event's body |
| `LinearLifecycle.FiringRefreshes` | internal/integrations/linear/application/lifecycle.go:112-136 | A found issue gets the event's body unless the update never arrived, and a comment exactly when it is old enough and the update succeeded |
| `LinearLifecycle.FaultsAreReported` | internal/integrations/linear/application/lifecycle.go:73-161 | An event reports success exactly when every API call it made was acknowledged |
| `LinearLifecycle.OpenAfterResolved` | internal/integrations/linear/application/lifecycle.go:138-161 | One newest open issue closes exactly when the comment succeeded and the archive had effect; it gains its comment and changes in nothing else |
| `LinearLifecycle.RacingFirings` | internal/integrations/linear/application/lifecycle.go:75-104 | Two handlers that both found nothing leave two open issues |
| `LinearRace.OpenWithinOverlap` | internal/integrations/linear/application/lifecycle.go:73-161 | With every API call of every handler interleaving and failing, a label never has more open issues than the handlers that were creating at the same time, or than it started with |
| `LinearRace.NoOverlapNoDuplicates` | internal/integrations/linear/application/lifecycle.go:73-161 | From at most one open issue, at most one remains under every interleaving in which no two handlers of the label create at the same time |
| `LinearRace.OverlapAttained` | internal/integrations/linear/application/lifecycle.go:73-109 | The bound is sharp: for every n some run leaves n open issues of one label |
| `LinearRace.PendingAfter` | internal/integrations/linear/application/lifecycle.go:73-109 | A handler starts creating only when its label has no open issue |
| `LinearRace.AloneAsHandled` | internal/integrations/linear/application/lifecycle.go:73-161 | A handler whose calls nobody interrupts does exactly what handling its event in one go does |
| `LinearLifecycle.OneDedupLabel` | internal/integrations/linear/application/renderer.go:59-69 | A created issue bears a group's dedup label exactly when it is its own group's |
| `LinearLifecycle.LabelsAre` | internal/integrations/linear/application/renderer.go:59-69 | Marker, dedup label, severity, and the capability exactly when given, in this order |
| `LinearLifecycle.PickMostRecentOpen` | internal/integrations/linear/application/lifecycle.go:166-180 | A newest open issue of the listing, or none exactly when none is open |
| `LinearLifecycle.LinearClient.FindIssuesByLabel` | internal/integrations/linear/ports/linear_client.go:19-23 | Lists exactly the issues bearing the label |
| `LinearLifecycle.Lifecycle.HandleFiring` | internal/integrations/linear/application/lifecycle.go:73-136 | The calls in source order have the specified effect for a newest open issue |
| `LinearLifecycle.Lifecycle.HandleResolved` | internal/integrations/linear/application/lifecycle.go:138-161 | The same for resolutions: comment first, archive only if it succeeded |
| `LinearLabels.SuccessfulCallsAgree` | internal/integrations/linear/infrastructure/linear_graphql_client.go:323-384 | In every interleaving with losses: one label per team and name, and all successful calls for a pair return its one label |
| `LinearLabels.FaultlessCallsSucceed` | internal/integrations/linear/infrastructure/linear_graphql_client.go:323-384 | Without faults every call that ends succeeds, however the calls race |
| `LinearLabels.LostResponseIsHealed` | internal/integrations/linear/infrastructure/linear_graphql_client.go:363-379 | A label created by a request whose response was lost is the one the second query returns |
| `LinearLabels.CreateTable` | internal/integrations/linear/infrastructure/linear_graphql_client.go:347-384 | What a create does to the call and the labels, case by case, success=false included |
| `LinearLabels.QueryTable` | internal/integrations/linear/infrastructure/linear_graphql_client.go:324-345 | What a query does to the call: found, missing the first or the second time, or lost |
| `LinearLabels.LabelClient.EnsureLabelByName` | internal/integrations/linear/infrastructure/linear_graphql_client.go:323-384 | One call from any reachable state: succeeds exactly as stated, returns a label of its pair, and creates at most that |
| `LinearLabels.LabelClient.ResolveLabels` | internal/integrations/linear/infrastructure/linear_graphql_client.go:165-174 | Every name becomes the id of a label of that name and team, in order, or the loop fails |
| `Ulids.EncodeTime` | ops/load/lib/common.js:39-49 | The loop emits the low len base-32 digits of the time, most significant first |
| `Ulids.EmitSymbols` | ops/load/lib/common.js:61-64 | Emitting five bits at a time preserves the number denoted by symbols and pending bits |
| `Ulids.EncodeBytes` | ops/load/lib/common.js:51-69 | The streaming packer emits exactly the base-32 digits of the big-endian number of its bytes, for any length of whole digits |
| `Ulids.EncodeRandom16` | ops/load/lib/common.js:51-69 | Ten bytes give the 16 digits of their 80-bit number |
| `Ulids.ShiftIn` | ops/load/lib/common.js:58-60 | The accumulator stays below 2^12 |
| `Ulids.BitOperations` | ops/load/lib/common.js:58-67 | The 32-bit shifts and masks are the arithmetic used |
| `Ulids.UlidIsValid` | internal/domain/shared/ids.go:17-22 | Every generated id passes the runtime's pattern |
| `Ulids.PatternIsAlphabet` | internal/domain/shared/ids.go:17-22 | The runtime's pattern accepts exactly 26 symbols of the generator's alphabet |
| `Ulids.UlidInjective` | ops/load/lib/common.js:70-72 | Distinct times below 32^10 or distinct entropy give distinct ids |
| `Ulids.UlidTimeOrdered` | ops/load/lib/common.js:70-72 | An earlier time gives a lexicographically smaller id, whatever the entropy |
| `Ulids.DigitsOfValue` | ops/load/lib/common.js:39-49 | Encoding the number a digit string denotes gives the digits back |
| `Ulids.NewUlid` | ops/load/lib/common.js:70-72 | The two parts concatenated are the specified id |
| `Capabilities.SplitAfterPrint` | ops/load/lib/common.js:199-214 | Splitting a printed triple at the last '@' and first '.' gives it back, dotted names included |
| `Capabilities.PrintAfterSplit` | ops/load/lib/common.js:199-214 | Printing whatever the splitter accepts gives the string back |
| `Capabilities.SplitAcceptsIff` | ops/load/lib/common.js:199-214 | Accepts exactly what prints from some triple with a non-empty, dot-free adapter and an @-free version |
| `Capabilities.CanonicalInjective` | internal/domain/execution/valueobjects/capability.go:66-68 | Distinct valid capabilities print differently |
| `Capabilities.CanonicalExact` | internal/domain/execution/entities/request.go:151-153 | A request whose adapter id is well formed prints like a registered capability only if it names it |
| `Capabilities.LookupIsExact` | internal/domain/execution/valueobjects/capability_registry.go:40-46 | A lookup answers with exactly the requested adapter, name and version |
| `Capabilities.HandleRoundTrip` | internal/domain/execution/entities/handle.go:121-198 | A handle decoded from its wire form keeps its capability id and canonical |
| `Capabilities.DecodeKeepsCanonicalIff` | internal/domain/execution/entities/handle.go:147-198 | An arbitrary accepted wire form prints back exactly when its adapter field is the canonical's own adapter part |
| `Capabilities.DecodeAcceptsForeignAdapter` | internal/domain/execution/entities/handle.go:147-198 | Adapter "ab" with canonical "cd.ef@v1" is accepted and prints as something else |
| `Capabilities.NewCapability` | internal/domain/execution/valueobjects/capability.go:30-47 | Accepts exactly valid names, versions and positive timeouts, and keeps every argument |
| `Capabilities.CharacterClasses` | internal/domain/execution/valueobjects/capability.go:25-36 | The letters, digits and marks allowed |
| `Capabilities.LengthsAre` | internal/domain/execution/valueobjects/capability.go:25-36 | The lengths allowed for adapter ids, names and versions |
| `Capabilities.PatternsDiffer` | internal/domain/execution/valueobjects/capability.go:25-36 | What tells the three patterns apart |
| `Capabilities.NewCapabilityRegistry` | internal/domain/execution/valueobjects/capability_registry.go:26-36 | Succeeds exactly without duplicates and files every capability under its canonical |
| `Chaos.LoadProfile` | internal/infrastructure/chaos/profile.go:87-137 | Accepts exactly well-formed profiles and keeps every entry |
| `Chaos.LoadEntry` | internal/infrastructure/chaos/profile.go:109-125 | One entry is accepted exactly when catalogued, of a known kind and with a known timing |
| `Chaos.ValidateProfileSupport` | internal/infrastructure/chaos/validate_support.go:26-69 | Passes only supported entries and reports only refusable ones, for every registry; with one owner per capability, exactly the unsupported ones |
| `Chaos.LookupAdapterByCanonical` | internal/infrastructure/chaos/validate_support.go:75-87 | Finds an owner exactly when there is one |
| `Chaos.EntrySupported` | internal/infrastructure/chaos/validate_support.go:36-62 | One entry passes only if its fault is native, misplaced persistence or declared by an owner, and fails only if nobody owns the capability or an owner does not declare it |
| `Chaos.RefusableIffUnsupported` | internal/infrastructure/chaos/validate_support.go:75-87 | With one owner per capability the two conditions exclude each other |
| `Chaos.OneOwnerByPrefix` | internal/infrastructure/chaos/validate_support.go:71-87 | Adapters listing only capabilities under their own id have one owner per capability |
| `Chaos.SupportMatchesSynthesis` | internal/adapters/outbound/httpreq/chaos.go:17-97 | Every adapter can synthesize exactly what it declares |
| `Chaos.SupportTable` | internal/adapters/outbound/filesystem/chaos.go:28-44 | The faults declared, by adapter and capability |
| `Chaos.SyntheticErrorsNameUrl` | internal/adapters/outbound/httpreq/chaos.go:39-97 | Synthesized http errors end with the url, or with <unknown> |
| `Chaos.SyntheticErrorsNameTarget` | internal/adapters/outbound/git/chaos.go:49-90 | Synthesized file and clone errors end with their target |
| `Chaos.SyntheticCodes` | internal/adapters/outbound/shell/chaos.go:32-76 | The synthesized 401, redirect count, signal and exit codes |
| `Chaos.ExitCodeIs` | internal/adapters/outbound/shell/chaos.go:58-66 | A configured exit code is used as printed, anything else becomes 137 |
| `Chaos.AtoiReads` | internal/adapters/outbound/shell/chaos.go:62-65 | The code reader inverts printing on 64-bit numbers and refuses the rest |
| `Chaos.AcceptedProfileIsDispatchable` | internal/infrastructure/chaos/chaos_adapter.go:72-124 | With an accepted profile dispatch meets a defensive error exactly for a misplaced persist_failure |
| `Chaos.DispatchTable` | internal/infrastructure/chaos/chaos_adapter.go:53-124 | Passes through exactly without a fault, delays, blocks and panics exactly for their kinds, and synthesizes what the adapter synthesizes |
| `Chaos.LoaderAcceptsMisplacedPersistFailure` | internal/infrastructure/chaos/profile.go:109-124 | The loader and the check accept persist_failure under any catalogued capability |
| `Chaos.SyntheticOutcomesFail` | internal/adapters/outbound/shell/chaos.go:32-76 | Every synthesized outcome normalizes, to failure/external_failure except process_exit with code 0 and an http auth_failure whose caller expects 401, which succeed |
| `Chaos.ParseKindOfName` | internal/infrastructure/chaos/fault_kinds.go:3-57 | Every fault kind is found again under its name |
| `Chaos.KnownNames` | internal/infrastructure/chaos/fault_kinds.go:3-24 | The fifteen names a profile may use |
| `RingBuffer.Ring.Append` | ops/chaos/receiver/main.go:44-52 | The entry joins the log; the buffer keeps holding the most recent ones |
| `RingBuffer.Ring.Snapshot` | ops/chaos/receiver/main.go:54-71 | Exactly the last min(n, capacity) entries since the last clear, in order, without those before a non-zero since |
| `RingBuffer.Ring.Clear` | ops/chaos/receiver/main.go:73-78 | Empties the log |
| `RingBuffer.NotBeforeKeeps` | ops/chaos/receiver/main.go:62-70 | The filter keeps every qualifying entry with its multiplicity and no other |
| `RingBuffer.RecentAfterAppend` | ops/chaos/receiver/main.go:44-52 | A full buffer drops exactly its oldest entry |
| `RingBuffer.SlotsAfterAppend` | ops/chaos/receiver/main.go:47-64 | Older entries keep their slots, shifted by one when the buffer is full |
| `TraceIds.TraceIdFromRequestId` | internal/adapters/inbound/http/middleware/trace.go:194-223 | Always sixteen bytes, never all zero, and never the error |
| `TraceIds.TraceIdIsValid` | internal/adapters/inbound/http/middleware/trace.go:191-214 | Valid by section 3.2.2.3 of W3C Trace Context for every request id |
| `TraceIds.HexRequestIdIsKept` | internal/adapters/inbound/http/middleware/trace.go:195-200 | A non-zero id written as 32 lower-case hex digits is returned |
| `TraceIds.SpelledIdIsKept` | internal/adapters/inbound/http/middleware/trace.go:195-200 | Any request id whose bytes other than 0x2D are the 32 hex digits of a non-zero value, in any mixture of cases, has that value as its trace id |
| `TraceIds.OnlySpelledIdsAreDirect` | internal/adapters/inbound/http/middleware/trace.go:195-200 | Only those take the hex path |
| `TraceIds.DashesDoNotMatter` | internal/adapters/inbound/http/middleware/trace.go:195-200 | On the hex path the byte 0x2D may be inserted anywhere |
| `TraceIds.CaseDoesNotMatter` | internal/adapters/inbound/http/middleware/trace.go:195-200 | On the hex path a letter may change case, bytes 0x41 to 0x5A |
| `TraceIds.DecodeAfterEncode` | internal/adapters/inbound/http/middleware/trace.go:197-198 | Hex decoding inverts hex encoding |
| `TraceIds.FoldPath` | internal/adapters/inbound/http/middleware/trace.go:201-209 | Off the hex path a bit of byte j is set exactly when an odd number of the bytes at positions congruent to j modulo 16 have it; only when every bit cancels is the id the fixed one |
| `TraceIds.OneByteMovesOneByte` | internal/adapters/inbound/http/middleware/trace.go:201-204 | Changing byte i of the request id changes byte i modulo 16 of the fold, always and by exactly the difference, and no other |
| `TraceIds.ShortIdsAreKept` | internal/adapters/inbound/http/middleware/trace.go:201-209 | A non-zero request id of at most sixteen bytes is its own trace id, padded with zeros |
| `TraceIds.AllZero` | internal/adapters/inbound/http/middleware/trace.go:216-223 | True exactly when every byte is zero |
| `Timeouts.MinDuration` | internal/application/services/structural.go:160-171 | The least positive duration, or zero when there is none |
| `Timeouts.PositiveIff` | internal/application/services/structural.go:160-171 | It is positive exactly when one of three durations is |
| `Timeouts.LeastPositiveUnique` | internal/application/services/structural.go:160-171 | That value is unique |
| `Timeouts.BudgetRoundTripIff` | internal/domain/execution/valueobjects/timeout_budget.go:19-34 | A stored budget reads back as its milliseconds exactly up to 9223372036854 |
| `Timeouts.BudgetAcceptsIff` | internal/domain/execution/valueobjects/timeout_budget.go:19-28 | Up to that bound exactly the positive budgets within the cap are accepted, as nanoseconds |
| `Timeouts.EffectiveTimeoutSound` | internal/application/services/execute_service.go:198-201 | For every accepted request, wrapped budgets included, the effective timeout is positive and at most every positive cap |
| `Timeouts.WrappedBudgetAccepted` | internal/domain/execution/entities/request.go:218-255 | Some enormous budget wraps to five milliseconds and is accepted, another to zero and is refused |

## Left out

- HTTP routing and handlers, the SDK wrapper, the Grafana client: plumbing with short status mappings.
- Telemetry setup, loggers, dashboards, alert rules, load schedules, bootstrap wiring, configuration, migrations.
- What the adapters do outside (go-git, processes, DNS, path allowlists): any raw outcome is allowed instead.
- JSON and YAML text, regular expressions as such, SHA-256: decoded values, character classes and an arbitrary function stand for them.
- CapabilityRegistry.List and FilterByAdapter: sorted listings of the same entries.
- Collisions of the dedup label: two groups with equal hashes share a label and count as one.
- create_dirs, file modes and path resolution of write_file: they do not affect the content property. The directory is not synced by the source, so a crash may undo renames; the model allows it.
- Execution.ExecuteService.Execute: runs one call undisturbed from an arbitrary reachable state; interleavings of several calls are the protocol's, whose events are the same actions.
- WriteFile.Folder.WriteFile: likewise one call at a time; interleavings, deaths and crashes are covered by the transition system.
- LinearLabels.LabelClient.EnsureLabelByName: likewise one call at a time.
- LinearLifecycle.PickMostRecentOpen: finds the head of the descending order by a scan, since the source uses only the head of its sort; ties are left open as the unstable sort leaves them.
- LinearLifecycle.LinearClient.FindIssuesByLabel: the port's contract, every issue with the label; paging is not modelled.
- The latency, hang and panic faults' timing: only which branch is taken.
- NewExecutionRequest beyond adapter id, timeout budget and submitted_at: identifier and payload checks that only reject.
- Receipt and handle JSON apart from the handle's capability.
