# HostDeck: verified models of its stateful cores

HostDeck is a desktop SSH manager. This project models the parts of it that keep state or compute
with a real algebra behind them, and proves what they promise:

- **Batch commands** (`BatchOutput`, `BatchModel`, `BatchScheduler`, `BatchRuns`, `BatchVerdicts`, `BatchCancels`, `BatchManager`): one
  goroutine per server, a token semaphore, cancellation per server and per command, bounded output, and
  a registry with `Clear`. Every locked region is one atomic step of a transition system; foreign calls,
  contexts and deadlines are oracles. The class `Manager` is the object itself: its methods are proved
  to do to the fields exactly what those steps do.
- **Credentials** (`CredentialNames`, `CredentialModel`, `CredentialSafety`, `CredentialLookup`,
  `CredentialFailures`, `CredentialAnswers`, `CredentialResolver`): the resolver over a reference store and a secret store, either of which can fail
  at any call. Names are structured, and are proved to be as distinct as the strings they stand for.
- **Network snapshots** (`NetworkConnections`, `NetworkListeners`, `NetworkMatching`,
  `NetworkAggregate`, `NetworkTotals`, `NetworkSummaries`, `NetworkConservation`, `NetworkDisplay`, `NetworkMeaning`, `NetworkSnapshot`): from parsed records to rows and totals, and what
  is conserved on the way.
- **Connection states** (`ConnectionStates`, `ConnectionRuns`, `ConnectionReports`, `ConnectionTracker`): the tracker whose
  gate makes late callbacks harmless, and the coordinator that disconnects a server.
- **Diagnostics** (`DiagnosticText`, `DiagnosticRuns`, `DiagnosticCodes`, `DiagnosticTasks`): streaming the output of a network
  diagnostic line by line against stripping the exit marker from the whole output.
- **Suggestions** (`Suggestions`) and **shell quoting** (`ShellQuote`).
- `Options`, `Text`, `Sorting` and `Partition` hold what several of these share.

Each imperative part of the program appears twice: as a function that says what one step does to a value,
and as a method with the program's loops and field updates that is proved against that function. The
theorems about whole runs are about the functions. What the functions answer is stated apart from them,
in the fields of requests, records and results, in `BatchVerdicts`, `CredentialAnswers`, `NetworkMeaning`,
`ConnectionReports` and `DiagnosticCodes`.

## What does not hold

Five expectations a reader may have are false of the code. For each the exact condition is proved, with
concrete inputs that fail.

- A call that fails leaves what is saved alone. `CommitSuccessful` and `SaveExplicit` write a secret before
  its reference and, when the reference cannot be written, delete the secret again, whatever was stored
  there before. `CredentialFailures.FailedCommitChangesIff` and `FailedSaveChangesIff` say exactly when such a
  call changes what the next lookup returns: for a connection's own secret (`CommitCanLoseSavedPassword`), for one
  that has no reference yet (`CommitCanLoseUnreferencedPassword`, `SaveCanLoseUnreferencedPassword`), and for
  the passphrase of a key-vault entry (`CommitCanLosePassphrase`).
- Every reference has a secret. `CommitDanglesIff` says exactly when a commit breaks that, in the reference
  store and in the key vault, and `ClearDanglesIff` when `Clear` does, which deletes the references last
  (`ClearCanDangle`). `SaveExplicit`, lookups and `ClearKind` never do.
- A secret saved explicitly is the one read back. With a stored legacy reference the canonical secret is
  written but lookups go on following the legacy one (`SaveExplicitIsReadBackIff`, `SaveExplicitCanBeIgnored`).
- The row counts of a network snapshot cover every connection that the parsed records stand for. They do
  exactly if no pre-aggregated record shares its id with another record and no plain socket shares a row
  with one (`NetworkConservation.RowsCountAllIff`). The ids of pre-aggregated Docker records do not contain the
  process, so two processes of one container collapse (`TwoProcessesCollapse`); see also `MixedIDCollapses`
  and `PlainSocketIsHidden`.
- Starting a batch command leaves the others alone. Its id is random; if it is that of a command that is
  still active, that one loses its registration and every later status change. `BatchRuns.StartIsSafeIffFresh`
  shows that this is the only way in which starting a command can break the invariant, and
  `CollidingIDBreaks` that it does.

## Model

| member | source | states |
|---|---|---|
| BatchOutput.LongestFitIsMaximal | internal/batchcommand/manager.go:655-667 | the prefix of chunks that is kept is the longest that fits both limits: a prefix fits exactly if it is no longer |
| BatchOutput.OutputIsLongestFit | internal/batchcommand/manager.go:633-693 | for any chunk sequence, each stored stream is the in-order text of its chunks in the longest prefix that fits both limits, plus one notice in the stream of the first chunk that does not fit; the output events spell the stored text |
| BatchOutput.OutputIsBounded | internal/batchcommand/manager.go:655-672 | whatever arrives, at most 1048576 bytes and 5000 lines are counted and both streams together hold at most that plus the notice; it is cut exactly if more arrived |
| BatchOutput.NewlinesAreCounted | internal/batchcommand/manager.go:655-661 | newlines are counted one for each position that holds one |
| BatchOutput.LinesAreCounted | internal/batchcommand/manager.go:655-661 | a chunk counts one line more than it has newlines before its last byte, an empty one none |
| BatchModel.Normalize | internal/batchcommand/manager.go:862-884 | concurrency is 3 when unset, at most 10, else as asked; the timeout is 60 seconds when unset, within 5..3600, else as asked; the servers are the distinct positive ones |
| BatchModel.UniquePositiveIsDistinct | internal/batchcommand/manager.go:886-900 | the server ids used are distinct, exactly the positive ones asked for, in order of first occurrence |
| BatchModel.FindResult | internal/batchcommand/manager.go:1005-1012 | the first result of a server, or none |
| BatchModel.AggregateIgnoresOrder | internal/batchcommand/manager.go:965-989 | the overall status depends only on which statuses occur, not on the order or number of results |
| BatchModel.AggregateTerminalIff | internal/batchcommand/manager.go:965-989 | the overall status is terminal exactly if every result is |
| BatchModel.AggregateMeaning | internal/batchcommand/manager.go:965-989 | each overall status from the statuses of the results: Running, Completed, Timeout, Failed and Canceled, exactly when |
| BatchScheduler.MoveKeepsCell | internal/batchcommand/manager.go:334-498 | every step of a server goroutine, with any outcome of its foreign calls, keeps the invariant of its command: status fits the program point, exit codes and times fit the status, tokens within the limit |
| BatchScheduler.FinishTaskKeepsCell | internal/batchcommand/manager.go:584-606 | when a command is finished every result is terminal, and so is the overall status |
| BatchScheduler.CancelKeepsCell | internal/batchcommand/manager.go:732-790 | canceling any server at any time keeps the invariant |
| BatchRuns.StartIsSafeIffFresh | internal/batchcommand/manager.go:158-209 | starting a command keeps the invariant of all commands exactly if its id is not that of an active one |
| BatchRuns.CollidingIDBreaks | internal/batchcommand/manager.go:177-205 | a concrete start with the id of an active command breaks it |
| BatchRuns.StepKeepsSystem | internal/batchcommand/manager.go:158-433 | every step of the whole program keeps the joint invariant |
| BatchRuns.ConcurrencyIsBounded | internal/batchcommand/manager.go:320-351 | in every interleaving, connecting or running servers never outnumber the tokens held, and those never exceed the limit, which is at most 10 |
| BatchRuns.RegisteredUntilFinished | internal/batchcommand/manager.go:263-281 | until it is finished a command stays registered and Clear refuses; afterwards all results are terminal and Clear succeeds |
| BatchRuns.TerminalIsFinal | internal/batchcommand/manager.go:535-582 | a terminal result never changes again; it has a completion time exactly if terminal, Completed means exit code 0, Canceled and Timeout mean -1 |
| BatchRuns.CanceledWhileQueuedIsNeverContacted | internal/batchcommand/manager.go:334-433 | a server made terminal while queued is never looked up, authenticated, dialed or sent the command |
| BatchRuns.StatusChangesAreBounded | internal/batchcommand/manager.go:500-606 | every status change lowers the summed rank, so a command changes statuses at most three times per server |
| BatchRuns.StoredOutputIsLongestFit | internal/batchcommand/manager.go:633-693 | at every point of every run the stored output is the longest fitting prefix of what was delivered while the server was running |
| BatchVerdicts.TerminalHasItsVerdict | internal/batchcommand/manager.go:433-582 | in every run, a terminal result was made so by one step: a cancellation of its server, then it is Canceled with -1, or the last step of its goroutine, then it has the status and exit code a foreign call of that goroutine came to before, or Canceled and -1 when it gave up waiting; its completion time is that of the step |
| BatchVerdicts.CallsSucceedInOrder | internal/batchcommand/manager.go:351-433 | in every run, a goroutine that launches the command or collects its output has made lookup, authentication, dialing and the commit of the credentials before, each with success |
| BatchVerdicts.NewTask | internal/batchcommand/manager.go:158-209 | a new command has the concurrency and timeout asked for within their limits, and one queued result with exit code -1 and no output for each distinct positive id |
| BatchVerdicts.QueuedUntilStarted | internal/batchcommand/manager.go:500-606 | in every run, an unfinished command is Queued exactly as long as none of its servers has started, and has a start time exactly from then on |
| BatchVerdicts.StepsStartServers | internal/batchcommand/manager.go:351-433 | connecting sets status and start time, promoting sets Running, finishing sets the completion time |
| BatchCancels.CancelFindsServer | internal/batchcommand/manager.go:695-762 | in every run, a cancellation finds the cancel function of a server exactly from its registration to the clean-up, and its session whenever output is being collected |
| BatchManager.UniquePositiveServerIDs | internal/batchcommand/manager.go:886-900 | the loop computes the distinct positive ids |
| BatchManager.ResultIndex | internal/batchcommand/manager.go:1005-1012 | the loop finds the first result of the server |
| BatchManager.AggregateStatus | internal/batchcommand/manager.go:965-989 | the counting loop computes the aggregate status |
| BatchManager.AppendChunk | internal/batchcommand/manager.go:655-672 | the counters and texts after one chunk |
| BatchManager.Manager.StartTask | internal/batchcommand/manager.go:158-209 | refuses an empty or interactive command, an empty list of servers and a manager that is not ready; else registers a new runtime with one queued result per server |
| BatchManager.Manager.TransitionServer | internal/batchcommand/manager.go:500-533 | moves an active result of a registered command to the status and start time given, and nothing else |
| BatchManager.Manager.FinishServer | internal/batchcommand/manager.go:535-582 | gives an active result of a registered command exactly the status, exit code and completion time handed over, and changes nothing else |
| BatchManager.Manager.FinishTask | internal/batchcommand/manager.go:584-606 | sets the completion time and the aggregate status of a registered command, and leaves its results |
| BatchManager.Manager.AppendOutput | internal/batchcommand/manager.go:633-685 | appends to the output of a running result of a registered command |
| BatchManager.Manager.CancelServer | internal/batchcommand/manager.go:732-762 | cancels an active result of a registered command and says whether there is a cancel function to call and a session to close |
| BatchManager.Manager.SetServerCancel | internal/batchcommand/manager.go:695-701 | records the cancel function of a registered command |
| BatchManager.Manager.SetSession | internal/batchcommand/manager.go:703-709 | records the session of a registered command |
| BatchManager.Manager.CloseSession | internal/batchcommand/manager.go:711-719 | forgets the session and says whether there was one to close |
| BatchManager.Manager.ClearServerRuntime | internal/batchcommand/manager.go:721-730 | leaves neither a cancel function nor a session of the server |
| BatchManager.Manager.CancelTask | internal/batchcommand/manager.go:764-790 | undisturbed, cancels exactly the active results and keeps the terminal ones |
| BatchManager.Manager.ActiveTargets | internal/batchcommand/manager.go:283-298 | collects exactly the registered commands in which the server is active |
| BatchManager.Manager.CancelInAll | internal/batchcommand/manager.go:283-298 | cancels the server in exactly the given commands, whatever the order |
| BatchManager.Manager.StopServer | internal/batchcommand/manager.go:283-298 | collecting the commands first has the same outcome as canceling the server in every registered command |
| BatchManager.Manager.Clear | internal/batchcommand/manager.go:263-281 | trims the id and refuses an empty one; removes a terminal command, refuses an active one, accepts an unknown one |
| CredentialNames.NamesNeverCollide | internal/credential/resolver.go:507-517 | canonical, legacy and key-vault names of all connections, kinds and keys are pairwise different strings |
| CredentialNames.TaggedInjective | internal/credential/resolver.go:507-517 | the connection id and the kind can be read back from a name |
| CredentialNames.NamesAreWritten | internal/credential/resolver.go:507-517 | the prefixes, separators and words of the three kinds of names, spelled; `DiagnosticCodes.NumberIsRead` says that the number in them is the id in decimal |
| CredentialSafety.RunKeepsOwnRefs | internal/credential/resolver.go:199-422 | over every run and failure pattern, a stored reference is its own pair's canonical or legacy name |
| CredentialSafety.RunKeepsOwnKeys | internal/credential/resolver.go:199-226 | over every run and failure pattern, the reference of a key-vault entry is the entry's own name |
| CredentialSafety.RunKeepsOtherSlots | internal/credential/resolver.go:79-422 | runs on other connections leave the reference and the secrets of a connection unchanged |
| CredentialSafety.SavedSecretIsLocal | internal/credential/resolver.go:342-422 | what a lookup returns depends on nothing but the connection's own entries |
| CredentialSafety.OtherSecretsUnchanged | internal/credential/resolver.go:199-422 | hence such runs leave the saved secret of every connection that does not use the key vault unchanged |
| CredentialLookup.StateAgreesWithResolve | internal/credential/resolver.go:79-197 | State says CanAuthenticate exactly if resolving an empty request succeeds, gives the code of its error, and has the same effect on both stores |
| CredentialLookup.ClearKindThenRequired | internal/credential/resolver.go:317-340 | after a successful ClearKind, from every prior state, lookups find nothing, write nothing, and without failures report authentication_required |
| CredentialLookup.CommitThenResolve | internal/credential/resolver.go:199-248 | after a commit that succeeded with a nonempty typed secret to be remembered, lookups and Resolve return that secret or the error of a store that fails, and write nothing |
| CredentialLookup.LookupIsStable | internal/credential/resolver.go:342-408 | after a lookup that succeeded, migrating or not, the next one writes nothing and returns the same secret |
| CredentialLookup.RecoveredIsStored | internal/credential/resolver.go:373-408 | a successful recovery, even when the canonical copy could not be written, leaves a reference to the secret it returns |
| CredentialLookup.SaveExplicitIsReadBackIff | internal/credential/resolver.go:250-282 | a secret saved explicitly is read back exactly if no legacy reference is stored or the legacy secret equals it |
| CredentialLookup.SaveExplicitCanBeIgnored | internal/credential/resolver.go:274-276 | with a legacy reference the old secret is read back |
| CredentialFailures.SaveExplicitNeverDangles | internal/credential/resolver.go:250-282 | from every state and under every failure pattern, SaveExplicit leaves no reference without a secret that had one before |
| CredentialFailures.LookupNeverDangles | internal/credential/resolver.go:342-408 | nor does a lookup with its recovery |
| CredentialFailures.ClearKindNeverDangles | internal/credential/resolver.go:317-340 | nor does ClearKind |
| CredentialFailures.CommitDanglesIff | internal/credential/resolver.go:199-248 | from every state, a commit leaves a reference without the secret it had exactly if that canonical or key-vault reference was there with its secret, writing it again failed and the rollback succeeded |
| CredentialFailures.FailedCommitChangesIff | internal/credential/resolver.go:199-248 | exactly when a commit that fails changes what the next lookup returns, for the key vault and for the connection's own secret, from the stored state and the failing calls |
| CredentialFailures.FailedSaveChangesIff | internal/credential/resolver.go:250-282 | exactly when a SaveExplicit that fails changes what the next lookup returns |
| CredentialFailures.AnswerIs | internal/credential/resolver.go:342-408 | what a lookup answers when no store fails: the secret under the reference, else the canonical, else the legacy one |
| CredentialFailures.VaultAnswerIs | internal/credential/resolver.go:342-361 | what it answers through the key vault |
| CredentialFailures.CommitCanLoseSavedPassword | internal/credential/resolver.go:232-246 | a run in which a saved password is lost that way |
| CredentialFailures.CommitCanLosePassphrase | internal/credential/resolver.go:204-219 | a run in which the passphrase of a key-vault entry is |
| CredentialFailures.CommitCanLoseUnreferencedPassword | internal/credential/resolver.go:236-281 | a run from empty stores in which a password without a reference is |
| CredentialFailures.SaveCanLoseUnreferencedPassword | internal/credential/resolver.go:272-281 | a run in which SaveExplicit loses one |
| CredentialFailures.ClearSucceedsIff | internal/credential/resolver.go:301-315 | Clear succeeds exactly if none of its calls fails |
| CredentialFailures.ClearDanglesIff | internal/credential/resolver.go:301-315 | from every state, Clear leaves a reference without the secret it had exactly if it deleted such a secret and a later call failed |
| CredentialFailures.ClearCanDangle | internal/credential/resolver.go:306-311 | a run in which it does |
| CredentialAnswers.CommitKeepsUnremembered | internal/credential/resolver.go:199-235 | whatever fails, a commit of a secret that is not to be remembered, came from the store, or is empty leaves references, secrets and the key vault as they were |
| CredentialAnswers.CommitStoresTyped | internal/credential/resolver.go:199-248 | a successful commit of a typed secret to be remembered stores it under its own name with its reference, and changes nothing else |
| CredentialAnswers.CommitSucceedsIff | internal/credential/resolver.go:199-248 | exactly when a commit succeeds, from the request and the failing calls |
| CredentialAnswers.SaveExplicitStoresTyped | internal/credential/resolver.go:250-282 | an explicit save stores what was typed, remembered or not, and writes the reference only if there was none |
| CredentialAnswers.ResolvePassword | internal/credential/resolver.go:141-162 | a typed password resolves as typed with no call to a store; without one the saved password is filled in and marked as coming from the store |
| CredentialAnswers.KeyMeaning | internal/credential/resolver.go:447-498 | which file or key-vault entry the private key comes from, and when there is none |
| CredentialAnswers.ResolveKey | internal/credential/resolver.go:162-197 | a plain key needs no passphrase, a typed one is tried and not looked up, else the saved one is tried |
| CredentialAnswers.ResolveFails | internal/credential/resolver.go:141-197 | without a key, or for another kind of authentication, resolving fails with that error |
| CredentialAnswers.StateMeaning | internal/credential/resolver.go:79-139 | when the state says that the key is encrypted, and that a credential is usable or saved |
| CredentialAnswers.RecoveryMigrates | internal/credential/resolver.go:373-408 | without a reference the canonical secret is adopted, else the legacy one is copied to the canonical name with a canonical reference |
| CredentialAnswers.MigrationUnderFailure | internal/credential/resolver.go:373-408 | what is returned and left behind for each single failing call of a migration |
| CredentialAnswers.ClearClears | internal/credential/resolver.go:301-315 | a successful Clear deletes exactly the references of the connection and the secrets under them |
| CredentialAnswers.ClearKindKeepsOther | internal/credential/resolver.go:317-340 | ClearKind leaves the other kind of the same connection alone, whatever fails |
| CredentialResolver.Resolver.LookupReference | internal/credential/resolver.go:410-422 | reads one secret; missing and empty ones are unavailable |
| CredentialResolver.Resolver.Recover | internal/credential/resolver.go:373-408 | the recovery and migration, call by call |
| CredentialResolver.Resolver.Saved | internal/credential/resolver.go:342-371 | the lookup by key-vault entry or by reference; a secret it returns is not empty and is stored under the reference |
| CredentialResolver.Resolver.PrivateKey | internal/credential/resolver.go:447-498 | the private key and the entry it came from |
| CredentialResolver.Resolver.State | internal/credential/resolver.go:79-139 | the authentication state |
| CredentialResolver.Resolver.Resolve | internal/credential/resolver.go:141-197 | the completed request, or the error |
| CredentialResolver.Resolver.CommitSuccessful | internal/credential/resolver.go:199-248 | the writes and rollbacks of a commit, in order; nothing is stored of a secret that is not to be remembered, and success means that one to be remembered is stored under its reference |
| CredentialResolver.Resolver.SaveExplicit | internal/credential/resolver.go:250-282 | the writes and rollbacks of an explicit save |
| CredentialResolver.Resolver.Clear | internal/credential/resolver.go:301-315 | secrets first, then references, stopping at the first failure |
| CredentialResolver.Resolver.ClearKind | internal/credential/resolver.go:317-340 | the reference first, then up to three secrets; success means that nothing is left of the pair |
| NetworkConnections.Find | internal/networkinspect/parser.go:1515-1532 | the first record with an id, or none |
| NetworkConnections.DedupeIDs | internal/networkinspect/parser.go:1515-1559 | the ids of the result are distinct, in order of first occurrence |
| NetworkConnections.DedupeKeepsFirstKnown | internal/networkinspect/parser.go:1525-1552 | each optional field is the first known value among the duplicates |
| NetworkConnections.DedupeIsIdempotent | internal/networkinspect/parser.go:1515-1559 | deduplicating twice is deduplicating once |
| NetworkConnections.DedupeInParts | internal/networkinspect/parser.go:1515-1559 | deduplicating parts first makes no difference |
| NetworkConnections.MergeLaws | internal/networkinspect/parser.go:1525-1552 | merging a duplicate keeps the id and what was known, is associative, and adds nothing the second time |
| NetworkConnections.DedupeConnections | internal/networkinspect/parser.go:1515-1559 | the loop over a map and an order computes that function |
| NetworkListeners.DedupedListeners | internal/networkinspect/parser.go:1449-1513 | rows differ in endpoint or process; a row without a process id is kept only if its endpoint has no known one; no known pair is lost |
| NetworkListeners.DedupeListenersIsIdempotent | internal/networkinspect/parser.go:1449-1513 | deduplicating listeners twice is doing it once |
| NetworkListeners.SortIgnoresOrder | internal/networkinspect/parser.go:1496-1503 | sorting the process ids removes the order in which the map yields them |
| NetworkListeners.DedupeListenerRows | internal/networkinspect/parser.go:1449-1513 | the loops compute that function, whatever order the maps iterate in |
| NetworkMatching.BestIsFirstMaximum | internal/networkinspect/parser.go:1636-1655 | the best listener matches, none scores higher and none before it as high; without one nothing matches |
| NetworkMatching.SamePidWins | internal/networkinspect/parser.go:1657-1695 | within one address class a listener with the connection's process id beats any other |
| NetworkMatching.BestMeaning | internal/networkinspect/parser.go:1636-1695 | in record fields: the best listener has the connection's source, container, kind of protocol and port, a wildcard or equal address, and an agreeing or unknown family; none that has all these has more evidence, none before it as much; without a best listener none has all these |
| NetworkMatching.ScoreIsLexicographic | internal/networkinspect/parser.go:1657-1695 | scores compare as evidence does: exact address and equal process id count the same, then the process name, then that neither has a process id |
| NetworkMatching.MatchScore | internal/networkinspect/parser.go:1657-1695 | the early returns and additions compute matching, stated in record fields, and score |
| NetworkMatching.BestListenerIndex | internal/networkinspect/parser.go:1636-1655 | the loop finds the best listener |
| NetworkAggregate.RowMembers | internal/networkinspect/parser.go:1287-1365 | rows have distinct ids, and a row's members are exactly the deduplicated connections whose best listener or outbound group it is |
| NetworkAggregate.EachConnectionHasItsRow | internal/networkinspect/parser.go:1287-1365 | every deduplicated connection is in such a row |
| NetworkTotals.SummaryCount | internal/networkinspect/parser.go:1584-1623 | the count of a row is the number of its distinct sockets, or the sum of its pre-aggregated counts if it has any |
| NetworkTotals.RowCountsAddUp | internal/networkinspect/parser.go:1308-1365 | the row counts add up over the deduplicated connections |
| NetworkTotals.CountsAreConserved | internal/networkinspect/parser.go:1287-1365 | without pre-aggregated records they add up to the number of distinct sockets |
| NetworkConservation.DedupeKeepsAllIff | internal/networkinspect/parser.go:1515-1559 | deduplication keeps every connection that the parsed records stand for exactly if no pre-aggregated record shares its id with another record; otherwise it loses some |
| NetworkConservation.RowsCountAllIff | internal/networkinspect/parser.go:1195-1365 | the rows count every connection that the parsed records stand for exactly if that holds and no plain socket shares a row with a pre-aggregated record; otherwise they count fewer |
| NetworkConservation.TwoProcessesCollapse | internal/networkinspect/parser.go:943-954 | two processes of one container are counted as the first |
| NetworkConservation.MixedIDCollapses | internal/networkinspect/parser.go:1515-1559 | a plain record with the id of a pre-aggregated one is not counted |
| NetworkConservation.PlainSocketIsHidden | internal/networkinspect/parser.go:1584-1623 | nor is a plain socket in the row of a pre-aggregated one |
| NetworkTotals.BytesAreConserved | internal/networkinspect/parser.go:1308-1358 | with the counter command, uploaded, estimated and downloaded bytes of the rows add up, modulo 2^64, to those of the distinct sockets, where an exact upload count excludes the estimate |
| NetworkTotals.NoCountersNoBytes | internal/networkinspect/parser.go:1315-1340 | without the counter command no row shows bytes |
| NetworkSnapshot.SummarizeConnections | internal/networkinspect/parser.go:1572-1634 | the loop computes the summary of a row |
| NetworkSummaries.SummaryMeaning | internal/networkinspect/parser.go:1572-1634 | the summary of distinct sockets counts their remote addresses, or adds those that pre-aggregated records report, and their processes; it is partial exactly if some but not all have a byte counter, and limited exactly if some process is unknown |
| NetworkSnapshot.AssignToListeners | internal/networkinspect/parser.go:1287-1301 | the assignments are exactly the parts of the listeners, and the matched ids those of their members |
| NetworkSnapshot.GroupOutbound | internal/networkinspect/parser.go:1711-1758 | the groups are exactly the parts of the outbound rows, in order of first occurrence |
| NetworkSnapshot.ListenerRows | internal/networkinspect/parser.go:1308-1358 | one row per listener with the summary of its part |
| NetworkSnapshot.OutboundRows | internal/networkinspect/parser.go:1697-1799 | one row per outbound group with the summary of its part, in the order of display |
| NetworkDisplay.DisplayKeeps | internal/networkinspect/parser.go:1786-1799 | the order of display keeps the rows and every sum over them |
| NetworkDisplay.PidLabelMeaning | internal/networkinspect/parser.go:1742-1767 | the process label of a row: that there are several process ids, the one there is, or nothing |
| NetworkMeaning.SameSocketIff | internal/networkinspect/parser.go:2292-2302 | two records are the same socket exactly if source, container, protocol, ports and normalized addresses agree |
| NetworkMeaning.SameListenerRowIff | internal/networkinspect/parser.go:2304-2314 | two listeners share a row exactly if they share source, container, protocol, address, port and process id |
| NetworkMeaning.SameGroupIff | internal/networkinspect/parser.go:1711-1732 | two connections share an outbound row exactly if source, container, protocol and process name agree, and without a name the process id |
| NetworkMeaning.NameMeaning | internal/networkinspect/parser.go:2323-2332 | an unnamed source shows as the host or as Docker |
| NetworkMeaning.DedupeKeepsFirst | internal/networkinspect/parser.go:1515-1559 | apart from the optional fields a deduplicated record is the first one with its id |
| NetworkMeaning.ListenersAreNamed | internal/networkinspect/parser.go:1449-1462 | listeners are grouped with the name of their source filled in, and otherwise as parsed |
| NetworkMeaning.ListenerRowMeaning | internal/networkinspect/parser.go:1449-1513 | a listener row is limited exactly if all its records are, has the first process name known among them, and is otherwise the first of them |
| NetworkMeaning.EndpointHasRow | internal/networkinspect/parser.go:1449-1513 | an endpoint none of whose records has a process id has a row without one |
| NetworkMeaning.ListenersStandInOrder | internal/networkinspect/parser.go:1217-1235 | listener rows stand by source, its name, port, protocol, address and process id, each ascending |
| NetworkMeaning.OutboundRowsStandInOrder | internal/networkinspect/parser.go:1786-1799 | outbound rows stand by source, its name, process name and process label, each ascending |
| NetworkMeaning.RowMeaning | internal/networkinspect/parser.go:1308-1358 | a row shows counts only with connection data and bytes only with the counter command |
| NetworkSnapshot.CountersPartition | internal/networkinspect/parser.go:1267-1281 | sockets with and without counters partition the set; exact and estimated upload counts exclude each other |
| NetworkSnapshot.CountSockets | internal/networkinspect/parser.go:1248-1285 | the loop counts the sockets by their counters and collects the ids by source |
| NetworkSnapshot.MatchedCount | internal/networkinspect/parser.go:1287-1303 | the number of matched ids is the number of sockets with a listener |
| NetworkSnapshot.SourcesPartition | internal/networkinspect/parser.go:1258-1265 | host and Docker ids together are the distinct sockets |
| NetworkSnapshot.CountAll | internal/networkinspect/parser.go:1358-1391 | the numbers of connections and of remote addresses, of the host, of Docker and together: reported ones replace those of the sockets, and the totals are the distinct sockets and addresses unless there is a summary |
| NetworkSnapshot.CountRemotes | internal/networkinspect/parser.go:1248-1257 | the loop collects the remote addresses, of all sockets and by source |
| NetworkSnapshot.RemotesCountedTwice | internal/networkinspect/parser.go:1388-1391 | adding host and Docker addresses counts exactly those that both use twice |
| NetworkSnapshot.SummariesCountTwice | internal/networkinspect/parser.go:1367-1391 | with a summary that reports no addresses the total exceeds the distinct addresses by exactly those that host and Docker share |
| NetworkSnapshot.AggregateSnapshot | internal/networkinspect/parser.go:1195-1447 | the rows in the order shown, the statistics with matched plus unmatched equal to parsed, and all numbers of connections and remote addresses of a snapshot |
| ConnectionRuns.ClosedStaysIdle | internal/connectionstate/tracker.go:38-157 | in every run, from a completed disconnect or a removal until the next BeginConnect, every state read or published has no session, no dial, no error, and is offline, disconnected or disconnecting |
| ConnectionRuns.BlockedIffClosed | internal/connectionstate/tracker.go:113-157 | a connection is blocked exactly if its last disconnect or removal came after its last BeginConnect, and then it is quiet |
| ConnectionRuns.ActiveSessionIff | internal/connectionstate/tracker.go:195-216 | HasActiveSession holds exactly if the monitor is active, some terminal is tracked, or SFTP is active |
| ConnectionRuns.StatusMeansSession | internal/connectionstate/tracker.go:209-232 | a connection shown as connecting has a session and no error; one shown as online has a session unless only its monitor says so |
| ConnectionRuns.RunIsPerConnection | internal/connectionstate/tracker.go:38-187 | the state of a connection depends only on its own events |
| ConnectionRuns.DisconnectShows | internal/serverlifecycle/coordinator.go:74-108 | until it completes, a disconnect shows as such whatever the managers report |
| ConnectionRuns.DisconnectIsFinal | internal/serverlifecycle/coordinator.go:74-108 | afterwards the connection is blocked and idle whatever was reported, stays so until the next BeginConnect, and other connections saw only their own reports |
| ConnectionReports.FlagsMeaning | internal/connectionstate/tracker.go:195-216 | each flag of the state from the tracked terminals, SFTP and the monitor |
| ConnectionReports.StatusMeaning | internal/connectionstate/tracker.go:209-232 | Disconnecting exactly while disconnecting; Online exactly if otherwise a terminal is online, SFTP is active or the monitor reported Online; else an error decides, then dialing, then Disconnected |
| ConnectionReports.CodesMeaning | internal/connectionerror/classifier.go:197-225 | which error codes each status stands for |
| ConnectionReports.TerminalGoesOnline | internal/connectionstate/tracker.go:57-83 | on an open connection a terminal that reports online makes the next state read Online with an active terminal |
| ConnectionReports.TerminalDials | internal/connectionstate/tracker.go:57-83 | one that reports connecting makes it read as dialing |
| ConnectionReports.TerminalEnds | internal/connectionstate/tracker.go:57-83 | any other report ends the tracking of that terminal only |
| ConnectionReports.MonitorReports | internal/connectionstate/tracker.go:38-55 | what a report of the monitor changes, and which error remains |
| ConnectionReports.SftpReports | internal/connectionstate/tracker.go:85-98 | SFTP is active exactly while it reports being active and connecting or online |
| ConnectionReports.FailureShows | internal/connectionstate/tracker.go:100-111 | a failure becomes the last error and shows unless online or disconnecting |
| ConnectionReports.BeginConnectOpens | internal/connectionstate/tracker.go:113-120 | opens the gate of this connection only, ends the disconnect and forgets the error |
| ConnectionReports.BeginDisconnectShows | internal/connectionstate/tracker.go:122-129 | shows Disconnecting at once and keeps everything else |
| ConnectionReports.CompletionShows | internal/connectionstate/tracker.go:131-145 | closes the gate and shows Disconnected with nothing active |
| ConnectionReports.RemovalShows | internal/connectionstate/tracker.go:147-173 | closes the gate and shows as Offline, like any unknown connection |
| ConnectionReports.PublishedIsRead | internal/connectionstate/tracker.go:38-157 | what is published after an event is what is read then, and which events publish nothing |
| ConnectionReports.ManagersStopInOrder | internal/serverlifecycle/coordinator.go:74-108 | the reports of the nine managers appear in the order in which they are stopped |
| ConnectionTracker.Record.BuildState | internal/connectionstate/tracker.go:195-232 | the loops and branches build the state of a record, whose meaning `ConnectionReports.FlagsMeaning` and `StatusMeaning` state |
| ConnectionTracker.Record.AnyOnlineOrConnecting | internal/connectionstate/tracker.go:203-210 | the loop over the terminals, in any order |
| ConnectionTracker.Tracker.RecordOf | internal/connectionstate/tracker.go:180-187 | the record of a connection, created empty when missing |
| ConnectionTracker.Tracker.UpdateMonitor | internal/connectionstate/tracker.go:38-55 | ignored when blocked, else updates and publishes |
| ConnectionTracker.Tracker.UpdateTerminal | internal/connectionstate/tracker.go:57-83 | ignored when blocked, else updates and publishes |
| ConnectionTracker.Tracker.UpdateSftp | internal/connectionstate/tracker.go:85-98 | ignored when blocked, else updates and publishes |
| ConnectionTracker.Tracker.RecordFailure | internal/connectionstate/tracker.go:100-111 | ignored when blocked, else updates and publishes |
| ConnectionTracker.Tracker.BeginConnect | internal/connectionstate/tracker.go:113-120 | opens the gate and clears the last error |
| ConnectionTracker.Tracker.BeginDisconnect | internal/connectionstate/tracker.go:122-129 | marks the record and publishes, blocked or not |
| ConnectionTracker.Tracker.CompleteDisconnect | internal/connectionstate/tracker.go:131-145 | resets the record and closes the gate |
| ConnectionTracker.Tracker.Remove | internal/connectionstate/tracker.go:147-157 | drops the record and closes the gate |
| ConnectionTracker.Tracker.StateOf | internal/connectionstate/tracker.go:159-173 | the current state, offline when unknown |
| ConnectionTracker.Coordinator.Disconnect | internal/serverlifecycle/coordinator.go:74-108 | runs the nine managers between begin and completion; the connection ends blocked and idle |
| DiagnosticText.LineByLineIsWhole | internal/networkdiag/commands.go:121-137 | reading line by line yields the same lines and exit code as stripping the marker from the whole output |
| DiagnosticText.ReplaceThenSplit | internal/networkdiag/commands.go:124-125 | once carriage returns are trimmed, replacing line breaks first makes no difference |
| DiagnosticText.SplitIsReadLines | internal/monitor/manager.go:752-770 | splitting yields what the reader sends, plus an empty piece after a final line break |
| DiagnosticText.ShownLinesStay | internal/networkdiag/commands.go:121-137 | the lines shown contain no marker and no blank line: a second pass shows them all |
| DiagnosticText.StripMarker | internal/networkdiag/commands.go:121-137 | the loop strips the marker lines; which code they carry is stated by `DiagnosticCodes.CodeRoundTrips` and `ScanConcat` |
| DiagnosticText.ReadStream | internal/monitor/manager.go:745-771 | the reader loop sends the lines of the stream |
| DiagnosticRuns.EmittedLines | internal/monitor/manager.go:666-716 | in every run, the output is the first 1000 lines to show among those processed, with one notice exactly if there were more, and the exit code is that of the last marker |
| DiagnosticRuns.CompletedIff | internal/monitor/manager.go:672-737 | a diagnostic completes exactly if lines and command ended, nothing stopped it, the context is alive, and the exit code is 0 |
| DiagnosticRuns.StreamingIsWhole | internal/monitor/manager.go:666-738 | for one stream read to its end, the streamed lines are the first 1000 of the stripped whole output and the outcome is decided by its exit code |
| DiagnosticRuns.NormalRunEnds | internal/monitor/manager.go:672-716 | such runs exist for all lines, wherever among them the command is waited for |
| DiagnosticRuns.StopDecides | internal/monitor/manager.go:672-716 | the first receipt that can stop the loop decides: a canceled context cancels, an expired one or a failed wait fails |
| DiagnosticRuns.ConclusionMeaning | internal/monitor/manager.go:717-738 | when nothing stopped the loop: canceled or timed out if the context says so, else by the exit code, and a failure is emitted |
| DiagnosticCodes.MarkerIff | internal/networkdiag/commands.go:138-148 | a line is a marker exactly if once trimmed it starts with the marker text |
| DiagnosticCodes.NumberIsRead | internal/networkdiag/commands.go:138-148 | a number written in decimal is read as that number exactly if it fits 64 bits |
| DiagnosticCodes.MarkerCarries | internal/networkdiag/commands.go:138-148 | the marker followed by a number within 64 bits carries it, with any blanks and carriage returns around |
| DiagnosticCodes.OneLine | internal/networkdiag/commands.go:121-137 | one line is a marker that sets the code, a blank that does nothing, or is shown without carriage returns at its end |
| DiagnosticCodes.ScanConcat | internal/networkdiag/commands.go:121-137 | lines are shown in order and the last marker decides the code, 0 without one |
| DiagnosticCodes.SplitJoins | internal/networkdiag/commands.go:121-137 | the pieces have no line break and joined by line breaks are the output |
| DiagnosticCodes.CodeRoundTrips | internal/networkdiag/commands.go:54-59 | whatever a command prints, the exit code printed after it is read back, and the rest is shown as without it |
| DiagnosticCodes.DiagnosticHasTheCode | internal/monitor/manager.go:666-738 | a diagnostic whose output is read to its end completes exactly if that code is 0 and else fails with it |
| DiagnosticRuns.RunNetworkDiagnostic | internal/monitor/manager.go:626-738 | the select loop and its conclusion compute the emissions and the outcome |
| DiagnosticTasks.FirstFinishWins | internal/monitor/manager.go:798-822 | the first attempt to finish a registered diagnostic decides its outcome |
| DiagnosticTasks.Registry.Finish | internal/monitor/manager.go:798-822 | changes only a running diagnostic that is registered |
| DiagnosticTasks.Registry.Cancel | internal/monitor/manager.go:784-796 | a registered diagnostic is no longer running afterwards, unless its goroutine ended in time and found it unregistered; one that has ended keeps its outcome; no other outcome than these appears |
| Suggestions.DedupeKeepsFirstBest | internal/commands/service.go:677-694 | for every non-empty key the first candidate of the highest score is kept |
| Suggestions.BeforeIsTotalOn | internal/commands/service.go:342-356 | on suggestions with different commands the comparison is a strict total order |
| Suggestions.BeforeMeaning | internal/commands/service.go:342-356 | the higher score first, then the later use, the more used, the shorter command, and the command itself |
| Suggestions.KeptCommandsDiffer | internal/commands/service.go:677-694 | the suggestions kept have different commands |
| Suggestions.RankIgnoresMapOrder | internal/commands/service.go:341-356 | whatever order the map is read in, the ranking is the same |
| Suggestions.SuggestIsTop | internal/commands/service.go:341-360 | the result is the best `limit` of the kept suggestions, strictly ranked |
| Suggestions.SuggestMeaning | internal/commands/service.go:341-360 | the result stands by score, highest first, has as many as asked for within 1 to 20, and consists of candidates that differ up to case and blanks |
| Suggestions.DedupeSuggestions | internal/commands/service.go:677-694 | the loops list every suggestion kept once |
| Suggestions.ListSuggestions | internal/commands/service.go:341-360 | the result does not depend on map iteration order |
| ShellQuote.QuotedIsRead | internal/dockermanager/manager.go:1620-1622 | anywhere in a word, either quoted form adds exactly the string and affects nothing after it |
| ShellQuote.QuotedIsOneWord | internal/networkdiag/commands.go:117-119 | before a blank, an operator or the end, either form is read as exactly that one word |
| ShellQuote.FormsAreEquivalent | internal/networkdiag/commands.go:117-119 | the two forms are equivalent in every context |
| ShellQuote.QuotingIsInjective | internal/dockermanager/manager.go:1620-1622 | different strings are quoted differently |
| ShellQuote.FormsAreWritten | internal/dockermanager/manager.go:1620-1622 | the two forms of a string with a quote, spelled |
| ShellQuote.ArgumentsAreRead | internal/dockermanager/manager.go:1620-1622 | any list of quoted arguments is read back as exactly those arguments |

## Left out

- Foreign calls (SSH dialing and sessions, private-key parsing, key protectors, the IP parser, lower-casing) are parameters or oracles, and so are contexts, deadlines and clocks; real time, fairness and liveness are not modelled.
- Batch commands: server names and hosts, messages, durations, and the order of emitted events (events are emitted after unlocking); `setServerIdentity` changes nothing that is modelled.
- BatchManager.Manager.StartTask: recognizing interactive commands is a parameter, and the command text is not kept in the runtime.
- BatchManager.Manager.CancelServer: says which foreign calls follow (canceling the context, closing the session) and does not model what they do.
- BatchManager.Manager.CancelTask: states the outcome when nothing else runs in between; interleavings are covered by `BatchRuns`.
- BatchManager.Manager.StopServer: likewise states the outcome when nothing runs between collecting and canceling.
- BatchManager.Manager: a runtime is a value in a sequence whose position stands for the pointer, so aliasing between runtimes is not modelled.
- CredentialResolver.Resolver.State: does not cover host trust and messages, and takes the flag for a saved passphrase of a key-vault entry from its reference.
- Credentials: error messages and wiping of secrets, and a reference column with a foreign string is one more name.
- NetworkConservation.RowsCountAllIff: is about pre-aggregated records with positive counts, the only ones the parser produces (internal/networkinspect/parser.go:938-942).
- Network snapshots: raw parsing, warnings, display labels of listeners, the approximate and permission flags of rows, and state texts. Row ids and socket ids are tuples instead of hashes and joined strings.
- Connection states: timestamps, and the order in which states published by concurrent callers reach the emitter. Statuses outside the declared constants do not occur.
- Diagnostics: the contents of the commands, pruning of old diagnostics, and the listing of diagnostics; a marker code with more digits than 64 bits allow counts as 0, as in the program.
- DiagnosticTasks.Registry.Cancel: the goroutine that may finish the diagnostic in time is a parameter.
- Suggestions: collecting and filtering the candidates, and the score itself, which depends on the clock. Strings are sequences of Unicode code points, on which Go's byte order agrees; invalid UTF-8 is not modelled.
- ShellQuote: of the shell only reading words with quoting; expansions are recognized and not performed.
- Interfaces, bindings, event emitters, persistence in SQL, terminals, file managers, and platform-specific code.
