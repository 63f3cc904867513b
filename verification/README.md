# Verification of RevitPy's stateful cores

A Dafny model of the parts of RevitPy and of its PyRevit bridge where state, re-entrance and
failure paths interact, with proofs about every run of them. Operations that change state are
classes and loops, as in the source; each is proved against a function on values, and the theorems
are lemmas about those functions and about runs of them.

| part | files | source |
|---|---|---|
| Cancellation tokens: a DAG of tokens whose callbacks re-enter each other | `Cancellation*.dfy` | `revitpy/async_support/cancellation.py` |
| Transactions, provider stack, groups, retry, cancellable scopes | `Transaction*.dfy`, `ProviderStack.dfy`, `AsyncScope*.dfy` | `revitpy/api/transaction.py`, `revitpy/api/wrapper.py`, `revitpy/async_support/context_managers.py` |
| JSON text, hex and the element serializer | `Json*.dfy`, `PythonJson.dfy`, `Bytes.dfy`, `ElementSerializer*.dfy`, `SerializerTheorems.dfy` | `bridge/serialization/element_serializer.py` |
| Query pipeline | `Query*.dfy` | `revitpy/api/query.py` |
| Batch operation manager, split at its awaits | `Batch*.dfy` | `revitpy/async_support/context_managers.py` |
| MCP messages, server, tools and safety guard | `Mcp*.dfy` | `revitpy/ai/` |
| File exchange life cycle | `FileExchange*.dfy` | `bridge/communication/file_exchange.py` |
| Genetic optimizer | `Genetic*.dfy`, `Modifications.dfy` | `bridge/revitpy_interface/ml_analysis.py` |
| Clash detection | `Clash*.dfy` | `bridge/revitpy_interface/analysis_handlers.py` |

`Common.dfy` holds options, results, decimal numerals, Python slices, lists of lists,
substrings and paths. Check the project with
`dafny verify dfyconfig.toml`.

## Modelling choices

- Callbacks of cancellation tokens are scripts: they register, cancel and may raise. Queued
  operations and handlers of transactions are opaque outcomes that do not call back into their own
  transaction. The abstract transaction provider answers, refuses or raises arbitrarily.
- Exceptions are values (`Result`, an `Outcome` with `raised`, or `None`).
- Clocks, random draws, hashes, gzip, `str.lower`, `re.search`, tool handlers and the objective
  function are parameters or arbitrary choices; every theorem holds for all of them. gzip is only
  assumed to undo itself and to reject text that starts with a brace.
- Floating point numbers are reals (genetic optimizer, clash geometry, file ages). In JSON a float is
  the numeral it is written with (`JsonRoundTrip`); `PythonJson` adds the floats themselves, with
  repr() and float() as an opaque pair of inverses.
- Asynchronous code is cut where it awaits; what lies between two awaits is one step.

## Where the code differs from its documentation or from what one would expect

The model follows the code.

- `commit_all` promises to roll back members already committed; its compensating loop never does
  anything (`CompensationIsIdle`), so groups are not atomic (`CommitAllAtomicIff`).
- Transaction handles can collide, and exactly when is known before the start (`StartCollidesIff`,
  `HandlesCanCollide`). They are removed by value, so a retry can turn the stack round
  (`RetryKeepsOrderIff`, `RetryKeepsOrderThroughoutIff`, `RetryCanReorder`); it always holds the
  same handles (`RetryLeavesStack`).
- A body that commits its transaction itself makes an auto-committing `async_transaction` raise
  although the transaction is COMMITTED (`AutoCommitReturnsIff`, `OwnCommitRaises`).
- `take(0)` means no limit. `any()` under a negative skip can be wrong (`AnyAgreesIff`), and when
  sorting raises it leaves the builder with a take of 1 (`QueryBuilder.Any`).
- Descending on text reverses the strings instead of the order (`DescendingTextDescendsIff`).
- NOT_EQUALS with a null operand holds only if both sides are null (`ComparisonsAgree`).
- An output name ending in .gz makes an uncompressed file unreadable (`BatchFileReadsIff`,
  `StreamFileReadsIff`). A negative `batch_size` drops all elements; zero raises.
- `execute_remaining` does not end for a `batch_size` of zero or less (`DrainEndsIff`).
- `push_undo` raises for a limit of zero or less (`PushAllKeepsLatest`).
- A finished file that has vanished from disk is never untracked (`TwoSweepsRemoveIff`).
- The optimizer reports `converged` as true even when it ran out of iterations: with fewer than ten
  that is never so (`ConvergenceIsPossibleIff`). Its mutation ignores the constraints. Keys that
  spaces gain are missing from the modifications (`RebuildsIff`).
- Different ids can be one file: spellings such as `x` and `./x` are from the start, and ids that
  agree after the last slash are once archived in the same second, the later move replacing the
  earlier file (`RequestsShareIff`, `SpellingsShareAFile`, `ArchivingMakesThemShare`).
- An output path with a trailing slash works in batch mode and, under compression, fails in
  streaming mode after the uncompressed file is written (`TrailingSlashFails`).
- `comparisons_made` counts pairs that were skipped because rows share a label
  (`ComparisonsMadeIsRightIff`).

## Model

| member | source | states |
|---|---|---|
| `CancellationTokens.TokenHeap.Cancel` | `revitpy/async_support/cancellation.py:95-101` | A caller's cancel takes the whole heap of tokens from its old state to the one the re-entrant cascade prescribes, and terminates: each cancel marks a token before it calls anything, so the live tokens decrease. |
| `CancellationTokens.TokenHeap.CancelToken` | `revitpy/async_support/cancellation.py:54-71` | The re-entrant cancel in place: nothing on an already cancelled token; otherwise mark it with the reason, call every callback although some raise, then clear the list. |
| `CancellationTokens.TokenHeap.RegisterCallback` | `revitpy/async_support/cancellation.py:43-52` | Appends in place, or calls at once and swallows the exception when the token is already cancelled. |
| `CancellationTokens.TokenHeap.CombineTokens` | `revitpy/async_support/cancellation.py:138-157` | Creates the combined token, registers its check on every source and checks once. |
| `CancellationTokens.TokenHeap.CheckCancellation` | `revitpy/async_support/cancellation.py:142-149` | The check reads the sources in order and cancels the combined token for the first cancelled one only. |
| `CancellationLaws.CancelTokenKeeps` | `revitpy/async_support/cancellation.py:54-71` | Every cancel, at any depth of re-entrance, keeps the wiring of the DAG, hands every ticket on exactly once and leaves the token cancelled. |
| `CancellationLaws.RegisterCallbackKeeps` | `revitpy/async_support/cancellation.py:43-52` | Registering, also from within callbacks, keeps the same invariants and issues one new ticket. |
| `CancellationTheorems.CombineQuiescent` | `revitpy/async_support/cancellation.py:138-157` | Combining keeps the invariants that hold between calls, for sources cancelled or not. |
| `CancellationTheorems.RunQuiescent` | `revitpy/async_support/cancellation.py:43-157` | They hold after every run of new tokens, registrations, cancels and combinations, and no cancelled token is ever touched again. |
| `CancellationTheorems.CancelledIsForwardClosure` | `revitpy/async_support/cancellation.py:54-157` | After every run the cancelled tokens are exactly the forward closure, through combinations, of those that callers cancelled; a source is never cancelled by its combination. |
| `CancellationTheorems.CalledExactlyOnce` | `revitpy/async_support/cancellation.py:43-71` | After every run each registered callback was called exactly once if its token is cancelled and never otherwise, whatever callbacks raise, register or cancel. |
| `CancellationTheorems.FirstReasonSticks` | `revitpy/async_support/cancellation.py:54-61` | The first reason survives every later run, and it was given by a caller or derived from a cancelled source. |
| `CancellationTheorems.CancelCallsInOrder` | `revitpy/async_support/cancellation.py:63-71` | One cancel calls the token's own callbacks in registration order with none left out or repeated, whatever else the cascade calls in between. |
| `Transactions.TransactionProvider.StartTransaction` | `revitpy/api/wrapper.py:166-173` | Appends a handle made of the stack length and hands it out. |
| `Transactions.TransactionProvider.CommitTransaction` | `revitpy/api/wrapper.py:175-183` | Removes the first equal handle and answers True, or False when there is none. |
| `Transactions.TransactionProvider.RollbackTransaction` | `revitpy/api/wrapper.py:185-193` | The same for rollback. |
| `Transactions.Transaction.Start` | `revitpy/api/transaction.py:129-148` | Start in place: wrong state, provider raising, or STARTED with the handle. |
| `Transactions.Transaction.Commit` | `revitpy/api/transaction.py:150-195` | Commit in place with its two nested exception paths: the fields, the calls made to the provider and the exception are those of the specification. |
| `Transactions.Transaction.Rollback` | `revitpy/api/transaction.py:197-230` | Rollback in place: returns at once unless STARTED or FAILED; handler exceptions are swallowed, a provider exception ends FAILED. |
| `Transactions.Transaction.Exit` | `revitpy/api/transaction.py:237-249` | The context manager exit: rollback after an exception, commit if auto_commit, nothing once the transaction has ended. |
| `TransactionTheorems.RollbackGrows` | `revitpy/api/transaction.py:197-230` | What rollback runs and returns: the rollback handlers exactly if it reaches ROLLED_BACK; it raises exactly if it ends FAILED. |
| `TransactionTheorems.CommitGrows` | `revitpy/api/transaction.py:150-195` | Commit returns exactly if it ends COMMITTED, which is exactly if every operation returned and the provider agreed; it runs the operations up to the first that raises, and the handlers of the status it reaches. |
| `TransactionTheorems.RunConsistent` | `revitpy/api/transaction.py:129-230` | In every run, with any provider and any failing code, the status only moves forwards (COMMITTED and ROLLED_BACK absorbing, FAILED only to ROLLED_BACK), no handlers of a status not reached have run, and COMMITTED means every operation ran once, in order. |
| `TransactionTheorems.HandlersRanOnce` | `revitpy/api/transaction.py:129-230` | Every run that ends COMMITTED or ROLLED_BACK reaches that status at one step, and over the whole run exactly the handlers of that status that were registered before that step ran, in order and once each; the others never ran. |
| `TransactionTheorems.HandlersRunOnReaching` | `revitpy/api/transaction.py:173-230` | All handlers run at the one call that reaches their status; no other call runs any. |
| `TransactionTheorems.FailedCommitRollsBackOnce` | `revitpy/api/transaction.py:157-195` | A failing commit asks the provider to roll back exactly once (never without a handle), and to commit only if no operation raised. |
| `TransactionTheorems.SuccessfulCommitAsksOnce` | `revitpy/api/transaction.py:157-171` | A commit that returns asked once to commit, never to roll back, and no operation raised. |
| `ProviderStack.StackIsOpenHandles` | `revitpy/api/wrapper.py:166-197` | After every interleaving of any number of transactions the stack, as a multiset, is the handles of those in STARTED, although handles collide and are removed by value. |
| `ProviderStack.InTransactionIffOneIsOpen` | `revitpy/api/wrapper.py:195-197` | is_in_transaction holds exactly if some transaction is STARTED. |
| `ProviderStack.OpenTransactionsAreNeverRefused` | `revitpy/api/wrapper.py:175-193` | The provider never answers False to an open transaction: its commit fails exactly if an operation raises, and its rollback never fails. |
| `ProviderStack.StartCollidesIff` | `revitpy/api/wrapper.py:166-173` | After every run, starting a transaction gives it the handle of another open one exactly if that handle is on the stack already: exactly if an open transaction of the same name was started at the present depth. |
| `ProviderStack.HandlesCanCollide` | `revitpy/api/wrapper.py:166-173` | A concrete run after which two open transactions hold the same handle. |
| `TransactionScopes.TransactionGroup.StartAll` | `revitpy/api/transaction.py:303-322` | The loop over members, with rollback_all on the first failure, on the members as objects. |
| `TransactionScopes.TransactionGroup.CommitAll` | `revitpy/api/transaction.py:324-352` | The loop over members and the compensating loop, on the members as objects. |
| `TransactionScopes.TransactionGroup.RollbackAll` | `revitpy/api/transaction.py:354-368` | The loop over members, in order, that swallows every exception. |
| `TransactionGroupSpec.RollbackAllEndsEveryMember` | `revitpy/api/transaction.py:354-368` | From STARTED or FAILED, rollback_all leaves no member STARTED whatever the provider does, and does not touch ended ones. |
| `TransactionGroupSpec.StartAllOpensAllOrNone` | `revitpy/api/transaction.py:303-322` | start_all leaves all members STARTED or, if it raises, none. |
| `TransactionGroupSpec.CompensationIsIdle` | `revitpy/api/transaction.py:341-347` | The loop that should undo committed members changes nothing, because rollback of a COMMITTED member returns early. |
| `TransactionGroupSpec.FailedCommitAll` | `revitpy/api/transaction.py:324-352` | If commit_all fails at member k, exactly the members before k are COMMITTED, k is not, and the later ones are untouched. |
| `TransactionGroupSpec.RollbackAllAfterFailedCommitAll` | `revitpy/api/transaction.py:324-368` | A following rollback_all ends k and the later members and keeps the committed ones. |
| `TransactionGroupSpec.CommitAllAtomicIff` | `revitpy/api/transaction.py:324-352` | On the document provider commit_all is all-or-nothing exactly if no member, or already the first, has an operation that raises. |
| `TransactionGroupSpec.CommitAllIsNotAtomic` | `revitpy/api/transaction.py:297-352` | Two new transactions of any names, started by start_all on the empty document provider, the second with one operation that raises: commit_all commits the first and raises. |
| `TransactionScopes.RetryTransaction` | `revitpy/api/transaction.py:447-476` | The retry loop computes what the specification says, result, attempts and final provider, under a given name or one drawn for each attempt. |
| `TransactionScopeSpec.ReturnedIffCommitted` | `revitpy/api/transaction.py:457-462` | An attempt returns exactly if its transaction ends COMMITTED, and then its operation returned. |
| `TransactionScopeSpec.RetryStopsAtFirstSuccess` | `revitpy/api/transaction.py:447-476` | At most max_retries + 1 attempts; returns exactly if some attempt succeeds, stops at the first such and returns its value; every earlier attempt ended uncommitted. |
| `TransactionScopeSpec.RetryLeavesStack` | `revitpy/api/transaction.py:447-476` | On the document provider the stack is left with the handles it had, and the call returns exactly if the operation returns in an allowed attempt. |
| `TransactionScopeSpec.RetryKeepsOrderIff` | `revitpy/api/transaction.py:447-476` | Under a given name the document provider's stack is left exactly as it was found, order included, if and only if no attempt is made or the handle about to be used, should it be on the stack already, stands only at its end. |
| `TransactionScopeSpec.RetryKeepsOrderThroughoutIff` | `revitpy/api/transaction.py:447-476` | Under any names, drawn anew for each attempt or not, every attempt made leaves the stack as it was if and only if the handle of each, should it be on the stack already, stands only at its end; handles not on the stack do. |
| `TransactionScopeSpec.RetryCanReorder` | `revitpy/api/transaction.py:447-476` | A concrete run of four transactions after which a retry under a given name turns the stack round. |
| `AsyncScopes.ScopeToken.Cancel` | `revitpy/async_support/context_managers.py:57-67` | Cancelling the token runs the scope's callback at most once: rollback if the transaction is active, swallowing failures. |
| `AsyncScopes.AsyncTransaction` | `revitpy/async_support/context_managers.py:19-74` | The scope from entry to exit, over any interleaving of cancels with a body that makes any calls on the transaction and catches or passes on what they raise, computes what the specification says. |
| `AsyncScopeSpec.AsyncCommitsIff` | `revitpy/async_support/context_managers.py:57-74` | The transaction ends COMMITTED exactly if it started and is committed where it ends: by a commit of the body, or by an auto-committing exit, before any cancel that reaches it, rollback or escaping exception; no operation queued by then raises and the provider commits. |
| `AsyncScopeSpec.BodyCommitIsFinal` | `revitpy/async_support/context_managers.py:69-74` | A commit made by the body is final: cancels, calls and the exit after it change neither status, provider nor trace, and the scope raises exactly if the rest of the body does or auto_commit makes the exit try again. |
| `AsyncScopeSpec.AutoCommitReturnsIff` | `revitpy/api/transaction.py:256-268` | With auto_commit the scope returns exactly if the transaction starts, no step of the body decides it, no queued operation raises and the provider commits: then its own exit commits. |
| `AsyncScopeSpec.OwnCommitRaises` | `revitpy/api/transaction.py:256-268` | A body that does nothing but commit makes the auto-committing scope raise although the transaction is COMMITTED. |
| `AsyncScopeSpec.CancelForcesRollback` | `revitpy/async_support/context_managers.py:57-67` | A cancel of the open transaction ends it uncommitted whatever the body does next, and an auto-committing exit then raises. |
| `AsyncScopeSpec.LateCancelsAreIdle` | `revitpy/async_support/context_managers.py:62-67` | A cancel after the transaction has been decided, in the body or after the scope, changes nothing: with it and without it the scope ends alike. |
| `AsyncScopeSpec.EarlyCancelsAreIdle` | `revitpy/async_support/context_managers.py:60-67` | On a token cancelled before, the callback runs at registration, finds a transaction that has not started, and the scope runs as without a token. |
| `JsonRoundTrip.LoadsDumps` | `bridge/serialization/element_serializer.py:388-396` | json.loads reads back exactly what json.dumps wrote, compact or indented, for every well-formed value: escapes, surrogate pairs, integers, float numerals, NaN and the infinities, nesting (sections 2 to 7 of RFC 8259). |
| `PythonJson.PythonValuesSurvive` | `bridge/serialization/element_serializer.py:388-396` | So does every Python value with floats in it, for any pair of repr() and float() that invert each other. |
| `JsonRoundTrip.PrintIsAscii` | `bridge/serialization/element_serializer.py:360-386` | The printed text is pure ASCII, so encoding it as UTF-8 and decoding loses nothing. |
| `Bytes.FromHexHex` | `bridge/serialization/element_serializer.py:360-386` | bytes.fromhex(b.hex()) == b for every byte string. |
| `SerializerTheorems.FlattenBatches` | `bridge/serialization/element_serializer.py:156-157` | The slices of the batch loop concatenate to the list for every step of at least 1; a negative step drops everything. |
| `SerializerTheorems.StreamTextLoads` | `bridge/serialization/element_serializer.py:148-198` | The text assembled from bracket-stripped batches, joined by commas with empty batches skipped, loads as one document of all serialized elements in order, whose metadata counts them. |
| `SerializerTheorems.StreamingRefinesBatch` | `bridge/serialization/element_serializer.py:102-198` | For every batch_size of at least 1 and any per-element failures streaming denotes exactly batch mode's element list. |
| `SerializerTheorems.NegativeBatchSizeDropsAll` | `bridge/serialization/element_serializer.py:156-157` | With a negative batch_size streaming writes no element and agrees with batch mode exactly if there was none to write. |
| `SerializerTheorems.BatchDataReads` | `bridge/serialization/element_serializer.py:414-472` | deserialize_elements of batch mode's dictionary gives the elements back, compressed or not, and when compression itself fails. |
| `SerializerTheorems.BatchFileReadsIff` | `bridge/serialization/element_serializer.py:388-472` | A saved batch file gives the elements back exactly if its name does not end in .gz. |
| `SerializerTheorems.StreamFileReadsIff` | `bridge/serialization/element_serializer.py:136-210` | A compressed streamed file gives the elements back; an uncompressed one exactly if its name does not end in .gz. Paths are compared as pathlib reads them. |
| `SerializerTheorems.GzNamedOutputIsUnreadable` | `bridge/serialization/element_serializer.py:449-462` | A concrete file name for which reading raises. |
| `SerializerTheorems.TrailingSlashFails` | `bridge/serialization/element_serializer.py:199-205` | For every file name, the name with a slash after it leads pathlib to the same file but ends with no name, which is what makes open() in the compression step fail. |
| `ElementSerializer.RevitElementSerializer.SerializeBatch` | `bridge/serialization/element_serializer.py:102-134` | The batch loop and the saving of its file write what the specification says and nothing else. |
| `ElementSerializer.RevitElementSerializer.SerializeStreaming` | `bridge/serialization/element_serializer.py:136-210` | The streaming loop with its first-batch flag and counter writes the specified text, compresses it and removes the uncompressed file; compressing fails for a path that ends in a slash, which pathlib strips and open() does not. |
| `ElementSerializer.RevitElementSerializer.SerializeElements` | `bridge/serialization/element_serializer.py:64-100` | The choice between the two modes, with every exception turned into the bridge error. |
| `QueryBuilders.QueryBuilder.Execute` | `revitpy/api/query.py:298-358` | The loops of execute, with the seen_values set, compute the declarative pipeline; the builder is unchanged. |
| `QueryBuilders.QueryBuilder.Any` | `revitpy/api/query.py:365-377` | any runs the query with take 1 and restores the take count. |
| `QueryTheorems.ComparisonsAgree` | `revitpy/api/query.py:121-140` | The six comparisons come from one total order, except that with a null on either side all six, NOT_EQUALS included, hold exactly if both are null. |
| `QueryTheorems.WherePermutation` | `revitpy/api/query.py:201-211` | Permuting or repeating where calls never changes the result. |
| `QueryTheorems.SortedIsStable` | `revitpy/api/query.py:313-329` | The sort is stable and ordered by the key tuple. |
| `QueryTheorems.StableSortIsUnique` | `revitpy/api/query.py:313-329` | There is only one such list, so the specification is complete. |
| `QueryTheorems.SortedIsPermutation` | `revitpy/api/query.py:313-329` | The sort loses and invents nothing. |
| `QueryTheorems.DistinctKeepsFirsts` | `revitpy/api/query.py:331-346` | The loop with seen_values keeps exactly the earliest element of each value and every unreadable one, in order. |
| `QueryTheorems.DistinctIsDuplicateFree` | `revitpy/api/query.py:331-346` | No readable value twice, every value still present, nothing new, no unreadable element dropped. |
| `QueryTheorems.PipelineIsDeclarative` | `revitpy/api/query.py:298-347` | Before the slice the result is the filtered elements in their one stable order, thinned to first occurrences. |
| `QueryTheorems.PagesRebuild` | `revitpy/api/query.py:348-352` | For every k of at least 1 the pages skip(i*k).take(k) rebuild the unpaged result. |
| `QueryTheorems.AnyAgreesWithCount` | `revitpy/api/query.py:360-377` | any() is count() > 0 for skips and takes that are not negative, and both raise together. |
| `QueryTheorems.AnyHoldsIff` | `revitpy/api/query.py:348-377` | For every skip and take, negative ones included: exactly when any() and when count() > 0 hold. |
| `QueryTheorems.AnyAgreesIff` | `revitpy/api/query.py:360-377` | Without a take, exactly which skips make the two agree. |
| `QueryTheorems.AnyMissesLastElement` | `revitpy/api/query.py:365-377` | skip(-1) on one element: count() is 1 and any() is False. |
| `QueryTheorems.DescendingNumbersDescend` | `revitpy/api/query.py:316-327` | Descending order really descends on a property that is a number (int, float or bool) everywhere. |
| `QueryTheorems.DescendingTextDescendsIff` | `revitpy/api/query.py:316-327` | Descending on text, done by reversing the strings, descends exactly if reversal turns the order of every two values round. |
| `QueryTheorems.DescendingTextCanAscend` | `revitpy/api/query.py:316-327` | It fails already for the two values "a" and "b". |
| `BatchSpec.RunKeeps` | `revitpy/async_support/context_managers.py:270-312` | Over every interleaving of adders and completions, split at the awaits: batches in slice order then queue are the operations in add order, executed + in flight + queued = added, the queue is shorter than batch_size. |
| `BatchSpec.QuietMeansDone` | `revitpy/async_support/context_managers.py:270-312` | With nothing queued or in flight, everything added was executed. |
| `BatchSpec.SequentialBatches` | `revitpy/async_support/context_managers.py:270-312` | n sequential adds and execute_remaining run exactly ceil(n/batch_size) batches that concatenate to the operations, and count n. |
| `BatchSpec.DrainEndsIff` | `revitpy/async_support/context_managers.py:305-312` | execute_remaining ends exactly if batch_size is positive or nothing was queued. |
| `BatchManager.BatchOperationManager.AddAllAndDrain` | `revitpy/async_support/context_managers.py:270-312` | The sequential client on the object, ending with the count and batches of the specification. |
| `BatchManager.BatchOperationManager.ExecuteRemaining` | `revitpy/async_support/context_managers.py:305-312` | The drain loop terminates and empties the queue for positive batch sizes. |
| `McpProtocol.FromPayload` | `revitpy/ai/_protocol.py:36-157` | What from_json makes of what each to_json prints, for every message. |
| `McpProtocol.RoundTripIff` | `revitpy/ai/_protocol.py:36-157` | from_json(to_json(m)) == m, through the text, exactly for requests with a non-null id, notifications with a null id, responses not setting both result and error, and dictionary or non-empty params (sections 4, 4.1 and 5 of JSON-RPC 2.0). |
| `McpServerSpec.OnlyProperCallsRun` | `revitpy/ai/server.py:216-260` | In every run of registrations and messages the registry stays keyed by tool name, no handler of a blocked tool runs, no MODIFY handler in READ_ONLY mode, none with a required argument missing. |
| `McpServerSpec.AnswerReplies` | `revitpy/ai/server.py:119-192` | A message gets a reply exactly if it is a request or cannot be parsed; the reply carries the request's id, or null if parsing or dispatch raised. Text with lone surrogates may be read as any value or refused. |
| `McpServerSpec.ConnectionRepliesInStep` | `revitpy/ai/server.py:119-153` | On a connection the replies match, in order, the requests and unparsable messages one by one. |
| `McpServerSpec.RepliesAreReadable` | `revitpy/ai/server.py:119-192` | The client reads every reply back as it was built. |
| `McpServerSpec.PushAllKeepsLatest` | `revitpy/ai/safety.py:129-145` | The undo stack holds the latest max_undo_stack entries; with a limit of 0 or less pushing raises. |
| `McpServers.McpServer.HandleConnection` | `revitpy/ai/server.py:119-153` | The connection loop sends the replies of the specification and keeps the registry. |
| `McpServers.McpServer.HandleToolsCall` | `revitpy/ai/server.py:216-260` | Lookup, safety check, execution and reply, with the handlers run. |
| `McpServers.RevitTools.ExecuteTool` | `revitpy/ai/tools.py:69-126` | Runs the handler exactly if the tool is known and no required argument is missing. |
| `FileExchange.FileExchangeHandler.CreateRequestFile` | `bridge/communication/file_exchange.py:93-136` | Writes the file and tracks a new record, in place; raises and tracks nothing exactly if the path goes through a directory that does not exist or names one. |
| `FileExchange.FileExchangeHandler.CreateResponseFile` | `bridge/communication/file_exchange.py:138-177` | The same for responses, under the id built from request and second. |
| `FileExchange.FileExchangeHandler.CreateDataFile` | `bridge/communication/file_exchange.py:179-247` | The same for data files, with the extension of their kind. |
| `FileExchange.FileExchangeHandler.UpdateFileStatus` | `bridge/communication/file_exchange.py:288-302` | Changes the status of the tracked record in place, and of no other. |
| `FileExchange.FileExchangeHandler.ArchiveFile` | `bridge/communication/file_exchange.py:318-351` | Moves the file and renames its record; answers False and changes nothing if it is untracked or missing. |
| `FileExchange.FileExchangeHandler.DeleteFile` | `bridge/communication/file_exchange.py:353-374` | Removes file and record; answers False if it is untracked. |
| `FileExchange.FileExchangeHandler.CleanupOldFiles` | `bridge/communication/file_exchange.py:376-411` | The two loops, in any order of the ids, do what one simultaneous sweep does. |
| `FileExchangeSpec.ArchiveOneMore` | `bridge/communication/file_exchange.py:394-398` | Archiving one more file after a set of others is archiving the larger set: no move disturbs another. |
| `FileExchangeSpec.TrackedFilesAreDistinct` | `bridge/communication/file_exchange.py:93-351` | After every run, on a disk with any directories and files, no two tracked ids without path separators share a file, archived or not. |
| `FileExchangeSpec.SameFileIff` | `bridge/communication/file_exchange.py:93-201` | For all ids and kinds: two paths lead to one file exactly if their ids ask for one directory and agree after the last slash, and the extensions are the same. |
| `FileExchangeSpec.ArchivedCollideIff` | `bridge/communication/file_exchange.py:330-342` | Two created files in different places share a place once archived exactly if that happens in the same second, their ids agree after the last slash and their extensions are the same. |
| `FileExchangeSpec.RequestsShareIff` | `bridge/communication/file_exchange.py:93-136` | Both for two requests with any ids that can be written: when they share a file from the start, and when they come to share one by archiving. |
| `FileExchangeSpec.MissingFolderRaises` | `bridge/communication/file_exchange.py:442-445` | An id that asks for a directory that does not exist makes creating raise and tracks nothing. |
| `FileExchangeSpec.PlainIdsAreWritable` | `bridge/communication/file_exchange.py:78-91` | An id without separators can be written in the directories the handler made, unless a directory has that file's name. |
| `FileExchangeSpec.SpellingsShareAFile` | `bridge/communication/file_exchange.py:93-136` | For every plain id, ./id is another id of the same file. |
| `FileExchangeSpec.ArchivingMakesThemShare` | `bridge/communication/file_exchange.py:318-342` | For every plain id, requests ../temp/id and ../data/id are two files, and one path once archived in the same second. |
| `FileExchangeSpec.SweepOf` | `bridge/communication/file_exchange.py:376-411` | What one sweep does to each tracked file: delete, archive or leave alone, and exactly when. |
| `FileExchangeSpec.WorkInProgressSurvivesRuns` | `bridge/communication/file_exchange.py:376-411` | Through every run that does not create it anew or mark it finished, a pending or processing file stays tracked under its path, stays pending or processing and keeps its place on disk. |
| `FileExchangeSpec.RemovalTakesTwoSweeps` | `bridge/communication/file_exchange.py:353-411` | In every run an unarchived file disappears only after at least two sweeps. |
| `FileExchangeSpec.FinishedFilesSurviveOneSweep` | `bridge/communication/file_exchange.py:376-411` | The sweep that archives a completed or error file does not delete it. |
| `FileExchangeSpec.TwoSweepsRemoveIff` | `bridge/communication/file_exchange.py:376-411` | Two sweeps past max_file_age remove a finished file exactly if it was still on disk; a record whose file is missing stays tracked. |
| `Genetic.GeneticAlgorithm.Optimize` | `bridge/revitpy_interface/ml_analysis.py:87-167` | Succeeds exactly if the population is at least 3, there is an iteration and no area is negative; the run it makes is one the breeding rules allow, stops at the first stalled generation, and returns the champion, its fitness, improvement and modifications. It modifies none of the caller's spaces. |
| `Genetic.InitializePopulation` | `bridge/revitpy_interface/ml_analysis.py:169-197` | The founders: the original first, then variations; numpy refuses a negative area. |
| `Genetic.Selection` | `bridge/revitpy_interface/ml_analysis.py:199-212` | Every selected individual won against two different others; numpy refuses exactly for a population of one or two. |
| `Genetic.Crossover` | `bridge/revitpy_interface/ml_analysis.py:214-234` | Neighbours are paired, the last with the first if their number is odd, and cut once; population size is kept. |
| `Genetic.Mutation` | `bridge/revitpy_interface/ml_analysis.py:236-270` | Every space is a mutation of the one in its place, on fresh copies. |
| `Genetic.CalculateModifications` | `bridge/revitpy_interface/ml_analysis.py:272-305` | The reported list is one entry for each changed pair, in order. |
| `GeneticSpec.BestIsMaximum` | `bridge/revitpy_interface/ml_analysis.py:105-125` | The champion was evaluated and nothing ever evaluated is fitter. |
| `GeneticSpec.ChampionIsEarliest` | `bridge/revitpy_interface/ml_analysis.py:119-123` | Everything evaluated before the champion is strictly less fit. |
| `GeneticSpec.BestNeverFalls` | `bridge/revitpy_interface/ml_analysis.py:119-125` | The fitness history never falls. |
| `GeneticSpec.EveryoneDescends` | `bridge/revitpy_interface/ml_analysis.py:105-141` | In every run population size and individual length are constant, space j keeps its labels, its area is original or at least 5, its occupancy original or at least 1 and at most one higher per generation. |
| `GeneticSpec.ChampionDescends` | `bridge/revitpy_interface/ml_analysis.py:119-123` | So does the returned solution. |
| `GeneticSpec.LosersAreNotSelected` | `bridge/revitpy_interface/ml_analysis.py:199-212` | An individual that all others, with at most one exception, outdo is never selected. |
| `GeneticSpec.CrossingConserves` | `bridge/revitpy_interface/ml_analysis.py:214-234` | Place by place, two children hold exactly their two parents' spaces. |
| `GeneticSpec.ImprovementIsNotNegative` | `bridge/revitpy_interface/ml_analysis.py:150-154` | The improvement is never negative, and 0 exactly if nothing evaluated was fitter than the start. |
| `GeneticSpec.ConvergenceIsPossibleIff` | `bridge/revitpy_interface/ml_analysis.py:136-143` | The result is always reported as converged. Where the initial spaces have no negative area, which would make numpy raise, that can be true exactly if at least ten iterations are allowed: with fewer no run meets the stopping rule, with ten some run does, for every objective. |
| `GeneticSpec.FlatRunsStall` | `bridge/revitpy_interface/ml_analysis.py:136-143` | A run in which nothing beats the initial individual has converged exactly from its tenth generation on. |
| `GeneticSpec.OffspringHaveArea` | `bridge/revitpy_interface/ml_analysis.py:249-256` | No offspring has a negative area, so mutation cannot make numpy raise. |
| `Modifications.RebuildsIff` | `bridge/revitpy_interface/ml_analysis.py:272-305` | Under distinct space ids the report rebuilds the optimized spaces from the original ones exactly if no space gained or lost a key. |
| `Modifications.BredChanges` | `bridge/revitpy_interface/ml_analysis.py:283-291` | For a bred space labels are never listed, and it is listed exactly if a size it already had has changed. |
| `ClashDetection.DetectElementClashes` | `bridge/revitpy_interface/analysis_handlers.py:498-566` | The nested loops report exactly the clashing pairs, the counts are the reports' severities, each report has its resolution, and comparisons_made is right exactly if all row labels differ. |
| `ClashDetection.GenerateClashResolutions` | `bridge/revitpy_interface/analysis_handlers.py:896-931` | One resolution for each report, in order, with its id and the priority of its severity. |
| `ClashSpec.ReportedIffClashing` | `bridge/revitpy_interface/analysis_handlers.py:511-546` | Reported are exactly the compared pairs of positive overlap, each once, in lexicographic order of their rows. |
| `ClashSpec.ReportedIffInteriorsMeet` | `bridge/revitpy_interface/analysis_handlers.py:511-546` | With the index 0, 1, 2, ... these are the pairs i < j whose interiors meet. |
| `ClashSpec.OverlapIsReportedOnce` | `bridge/revitpy_interface/analysis_handlers.py:511-514` | Of two overlapping rows exactly one order is reported, unless they share a label; then neither. |
| `ClashSpec.ComparedCount` | `bridge/revitpy_interface/analysis_handlers.py:511-514` | Comparisons plus pairs sharing a label are n(n-1)/2. |
| `ClashSpec.ComparisonsMadeIsRightIff` | `bridge/revitpy_interface/analysis_handlers.py:560-563` | The reported n(n-1)/2 is the number of comparisons exactly if all labels differ. |
| `ClashSpec.CountsAddUp` | `bridge/revitpy_interface/analysis_handlers.py:509-529` | The severity counts add up to the number of reports. |
| `ClashSpec.CriticalRatioIsProportion` | `bridge/revitpy_interface/analysis_handlers.py:553-558` | The critical ratio lies between 0 and 1, and is 1 exactly if there are reports and all are critical. |
| `ClashSpec.ClashIdsAreDistinct` | `bridge/revitpy_interface/analysis_handlers.py:532-534` | Under distinct labels no two reports share a clash id, so resolutions match reports one to one. |
| `ClashSpec.ReportsAreSymmetricAndMonotone` | `bridge/revitpy_interface/analysis_handlers.py:812-893` | Swapping two elements changes only the order of ids in their report; a larger overlap is never less severe; a critical category makes the clash critical. |
| `ClashSpec.MissingGeometryClashes` | `bridge/revitpy_interface/analysis_handlers.py:834-842` | Two elements without geometry always clash, with volume 1. |
| `ClashGeometry.OverlapIsSymmetric` | `bridge/revitpy_interface/analysis_handlers.py:845-867` | Overlap volume and centre do not depend on the order of the boxes. |
| `ClashGeometry.PositiveIffInteriorsMeet` | `bridge/revitpy_interface/analysis_handlers.py:845-867` | For all boxes the overlap is positive exactly if some point is inside both. |
| `ClashGeometry.OverlapIsPartOf` | `bridge/revitpy_interface/analysis_handlers.py:845-867` | The overlap is at most a well-formed box's volume, and all of a solid box exactly if that box lies within the other. |
| `ClashGeometry.OverlapIsBounded` | `bridge/revitpy_interface/analysis_handlers.py:845-867` | It lies between 0 and the smaller volume. |

## Left out

- AnyAgreesIff: stated for queries without a take count; for the others `AnyHoldsIff` says when each side holds.
- DistinctKeepsFirsts: list-valued properties and NaN are not modelled.
- Execute: `sorted` is taken to raise exactly if two key tuples clash; that a comparison sort must meet such a pair is argued (it has to compare neighbours of different kinds) and not derived from an implementation of the sort.
- LoadsDumps: Python dictionaries have no duplicate keys, so none are printed; a string with a lone surrogate is no value of the model.
- AnswerReplies: a value with a lone surrogate is stood in for by an arbitrary value of the model; a float's numeral is echoed as it came, where Python prints the shortest one for the same float; numerals too large or too small for a float are taken at face value.
- AsyncTransaction: other users of the same document provider while the scope is open (`ProviderStack` has them).
- Optimize: the objective function neither raises nor returns NaN; the probability of mutating is an arbitrary choice, so nothing is said about rates.
- CleanupOldFiles: the moves happen in an arbitrary order rather than in the dictionary's insertion order, which the result does not depend on.
- DetectElementClashes: row labels are natural numbers and corner points have all three coordinates.
- Cancellation: combining tokens inside a callback, timeouts, `cancelled_at`, `dispose` and `with_cancellation` polling.
- Transactions: `duration`, options other than `auto_commit`, logging, element caches of the document provider, transactions re-entered by their own operations.
- Serializer: extraction of element properties, statistics, the memory figures behind the memory check, validation warnings.
- Query: `first`, `single` and their defaults, lazy element sets, change tracking of elements; regular expressions and lower-casing are parameters.
- MCP: the contents of `initialize`, `tools/list` and `prompts/*` results, previews, the built-in handlers, failing sends.
- File exchange: file contents, checksums, `modified_at`, statistics, `read_file`, I/O failures other than a missing directory, an archived name that is a directory, symbolic links; paths are read as on POSIX, and `TrackedFilesAreDistinct` and the theorems on sweeps and runs are for ids without separators of either kind.
- Optimizer: simulated annealing, execution times, the objective functions shipped with the engine.
- Clash detection: texts of descriptions and suggestions, detection times; `ignore_rules`, `clash_types` and `priority_levels` have no effect in the code.
- Named pipes, WebSocket transport, protocol selection, installers and user interface helpers: input and output or code without state.
