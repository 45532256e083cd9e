# Verified model of the stateful core of sqlite3-ruby

sqlite3-ruby binds SQLite to Ruby. Most of it forwards calls; the parts modelled here keep state
between calls and have to keep it right under every interleaving: who may release a connection, in a
tree of forking processes under a garbage collector; what the collector must pin while SQLite holds
raw pointers; aggregate callbacks with many contexts in flight; statements as cursors; batches and
transaction blocks; and a few algorithms with an exact inverse or bound.

Each C function or Ruby method that updates state is a method of a class with the fields it updates,
proved against a function of the old state. The properties are lemmas about those functions, over all
runs or all inputs. SQLite itself is a small abstract machine, stated with each module:

| module | models |
|---|---|
| `Handles` | raw connections and statements, the `sqlite3Ruby` and `sqlite3StmtRuby` structs, open, close, discard, finalize |
| `ProcessTree` | Ruby objects in process images; every interleaving of acts, forks, garbage collection and finalizers |
| `ForkSafety` | opening modes and the after-fork hook |
| `Pinning` | registrations, callbacks and second initializations against `database_mark` |
| `Aggregator` | xStep and xFinal over contexts, instances and wrappers |
| `CallbackExceptions` | exceptions on their way from a callback to `Statement#step` |
| `Cursor`, `ResultSets`, `Parameters` | statements, result sets in both modes, parameter placement |
| `Batch` | `execute_batch` over an abstract parser |
| `Transaction` | `transaction` over all block programs |
| `Int64` | the 64-bit bound, in both preprocessor variants |
| `Quoting`, `SqlError`, `BusyRetry` | `quote` against `tweak_default`, the caret line, the retrying busy handler |

What is assumed of the surroundings stands in the contracts: process ids are not reused
(`ProcessTree.CanMove`); `discard` is called on open databases (`ProcessTree.Possible`); a context
makes no callback after its xFinal and handlers finalize to values SQLite takes
(`Aggregator.Protocol`, while `Pinning` asks neither); a context belongs to one statement
(`CallbackExceptions.WellNested`); a statement's columns do not change under its cache; SQLite binds
only to a reset machine and fails a step in which a function reported an error
(`CallbackExceptions.ReportedNow`); the parser takes up part of any text there is, never beyond its
first NUL, and how much is lexical (`Batch.ValidEngine`); garbage collection takes a database only
with its statements. File names, clocks, schedules, parser and programs are parameters.

Results where the code does not meet the plain statement, each with its exact condition:

- A string survives `quote` and `tweak_default` if and only if no line strictly inside it reads `null`
  in any case; otherwise it comes back as nil (`Quoting.QuoteRoundTrip`).
- A name from `named_params` leads back to its own slot if and only if its placeholder is written with
  a colon and its name does not start with another (`Parameters.ReportedNameFindsSlot`).
- An Integer returned from a function differs from the same Integer bound, on 64-bit longs, exactly
  between the Fixnum range and the 64-bit range (`Int64.RoutesCompared`).
- The two forms of an error's SQL agree if and only if no CRLF comes before the end of the text
  (`SqlError.ExcerptIsChomp`).
- An aggregate cleans up after itself if and only if the value of `finalize` is one SQLite takes; the
  conversion is unprotected (`Aggregator.CleanUpNeedsConvertible`).
- A step in which a callback raised raises the exception raised last if and only if no rescue in a
  callback cleared it after that; a nested step does, which takes the exception whichever statement's
  callback raised it (`CallbackExceptions.RaiseReachesStep`, with a history in
  `NestedStepTakesException`).
- Such a step starts its program over unless SQLite had a row; it can have one if and only if no scalar
  function of it raised and no group finished in it fails, and then a failed group is in flight
  (`CallbackExceptions.RowNeedsFailedGroupInFlight`, with a history in `GroupAcrossSteps`).
- `each` and `execute!` end without an error short of the end if and only if what cuts the read is a
  StopIteration from a callback or from the caller's block, which `loop` rescues; result sets, which read
  with `while`, raise it (`Cursor.LoopEndsQuietly`, with runs in `Cursor.StopIterationIsSwallowed`).
- `execute_batch` runs all of a text if and only if no NUL stands inside it; what follows the first NUL
  is dropped without an error (`Batch.SplitLosesNothing`).
- The two result modes agree on the first value of every row if and only if the first column's name is
  not repeated (`ResultSets.FirstValueModes`).
- An object open for writing has lost its fork guard, so that a process which did not create it really
  closes the connection, if and only if an earlier open of the object was read-only
  (`ProcessTree.GuardLostIffOpenedReadonly`, with a run in `ProcessTree.GuardLostByReopening`).
- What SQLite holds stays pinned if and only if no function or collation is registered after a second
  `initialize` while an earlier connection still holds values of that kind; that is exact for runs that
  hand no object over twice, and sharing objects only helps (`Pinning.PinnedIffUndisturbed`, with a run in
  `Pinning.ReopenedObjectUnpins`). Aggregators, and whatever the latest connection holds, stay pinned in
  any case.
- When all finalizers have run, a statement is left over if and only if a second `initialize` of its object
  overwrote it, and a connection if and only if it was discarded or such a statement is on it
  (`ProcessTree.NothingLeaks`, with a run in `ProcessTree.SecondPrepareLoses`).
- A `transaction` call raises although the data changed, for a block without nested calls, if and only if
  a failing statement ended the transaction and the rest of the block makes something else of the old
  data (`Transaction.FlatBlockLosesAtomicity`, with a block in `RescuedFailureLosesAtomicity`;
  `Transaction.RaisesYetChanges` for every block without explicit begin, commit or rollback).

Where code and documentation disagree the model follows the code:

- lib/sqlite3/database.rb:637-639 says any exception from a transaction block rolls back; the code
  commits unless a StandardError left the block.
- lib/sqlite3/database.rb:127-131 lists `readonly:` without exception; for a UTF-16 file name the code
  ignores it, and does not look for conflicting options either.
- ext/sqlite3/aggregator.c:169-171 says the user should never see the message that xFinal reports; the
  code lets it through exactly if a callback reported it and no exception stands, be it that a rescue
  cleared it or that it was raised in an earlier step (`CallbackExceptions.InternalErrorNeedsLostException`).
- ext/sqlite3/statement.c:349-353 describes `clear_bindings!` as a reset; the code leaves the machine
  where it is.

## Model

| member | source | states |
|---|---|---|
| Handles.MarkDiscarded | ext/sqlite3/database.c:55-56 | setting one flag bit keeps the other |
| Handles.Database.Allocate | ext/sqlite3/database.c:162-169 | a new object belongs to the process that allocated it |
| Handles.Database.OpenV2 | ext/sqlite3/database.c:201-240 | refuses an open object; a failed open leaves the object closed and its handle closed; the READONLY bit is set only by a successful open with that flag |
| Handles.Database.Open16 | ext/sqlite3/database.c:1027-1058 | the same, and never the READONLY bit |
| Handles.Database.DiscardDb | ext/sqlite3/database.c:19-57 | the files of all schemas and the main journal are closed, the connection is abandoned unfreed, the DISCARDED bit set |
| Handles.Database.Close | ext/sqlite3/database.c:59-74 | really closes for a read-only connection or in the owning process, else discards; nothing on a closed object |
| Handles.Statement.Prepare | ext/sqlite3/statement.c:52-85 | a closed database is refused before SQLite is called; otherwise the connection is handed to SQLite whatever the text, which leaves a handle, or none for blank or faulty text, and the tail |
| Handles.Statement.Use | ext/sqlite3/statement.c:7-9 | the discarded-database guard comes before the closed-statement guard, and both before SQLite |
| Handles.Statement.Close | ext/sqlite3/statement.c:92-105 | finalizes once, also on a discarded database |
| Handles.ReleasedTakesNoCall | ext/sqlite3/database.c:19-74 | the SQLite machine records any call on a connection that was closed or abandoned, a second release included |
| Handles.StatementOutlivesClose | ext/sqlite3/statement.c:13-23 | and any on a finalized statement; a statement of a closed connection may be used, and the last to go frees it |
| ProcessTree.OpenTakesHold | lib/sqlite3/database.rb:142-183 | a successful open gives a closed object the new connection, with its flags, and tracks it if `initialize` completes |
| ProcessTree.FailedOpenLeavesNothing | ext/sqlite3/database.c:228-233 | a failed open leaves the objects alone and its handle closed and freed |
| ProcessTree.UsesReachSqlite | ext/sqlite3/statement.c:3-9 | every use and every prepare that no guard stops reaches SQLite, which would record it on a dead handle |
| ProcessTree.PrepareTakesHold | ext/sqlite3/statement.c:52-85 | a prepare gives the object the statement of its text, on its database's connection |
| ProcessTree.StatementsGo | ext/sqlite3/statement.c:13-23 | closing a statement or sweeping its object finalizes exactly what it holds |
| ProcessTree.DiscardAbandons | ext/sqlite3/database.c:282-292 | `discard` abandons in any process, the opener's included |
| ProcessTree.UseKeeps | ext/sqlite3/statement.c:3-9 | no use of a live database or statement misuses SQLite: its handle is usable or a guard raises first |
| ProcessTree.ReleaseKeeps | ext/sqlite3/database.c:59-74 | close, discard and the finalizer keep objects, connections and statements consistent |
| ProcessTree.FinalizeKeeps | ext/sqlite3/statement.c:13-23 | so does the finalization of a statement, which frees a zombie connection with its last statement only |
| ProcessTree.ActKeeps | ext/sqlite3/database.c:137-142 | the image invariant survives every act, garbage collection and finalizers in any order included |
| ProcessTree.CopyOk | ext/sqlite3/database.c:162-169 | a forked copy satisfies the invariant in a process that created none of its objects |
| ProcessTree.RunKeeps | adr/2024-09-fork-safety.md:18-36 | every process of every run satisfies it, through nested forks |
| ProcessTree.NoMisuse | ext/sqlite3/statement.c:7-23 | in every run, reopened objects and prepares included, no handle is released twice, nothing reaches a freed handle, and only close and finalization a discarded one |
| ProcessTree.NothingLeaks | ext/sqlite3/database.c:137-142 | when all finalizers have run, every statement was finalized once unless a second `initialize` overwrote it, and every connection freed once unless it was discarded or such a statement is on it |
| ProcessTree.SecondPrepareLoses | ext/sqlite3/statement.c:69-79 | a run that loses a statement |
| ProcessTree.OnlyTheOpenerCloses | ext/sqlite3/database.c:59-74 | in every run a writable connection is closed for real by another process than its opener only if the same object had a read-only connection |
| ProcessTree.ReleasePath | ext/sqlite3/database.c:59-74 | which releases close and which discard, in any process of any run, and what either leaves behind |
| ProcessTree.DiscardedForGood | adr/2024-09-fork-safety.md:28-34 | no later act frees or revives a discarded connection |
| ProcessTree.GuardLostIffOpenedReadonly | ext/sqlite3/database.c:235-237 | a foreign process really closes an object's writable connection if and only if an earlier open of the object was read-only, and discards it otherwise |
| ProcessTree.GuardLostByReopening | ext/sqlite3/database.c:62-68 | a run in which a child really closes its parent's writable connection |
| ProcessTree.HookTurnsAre | lib/sqlite3/fork_safety.rb:33-54 | after any number of turns of the hook, with objects dying in between: who is alive, and who is still open for writing, exactly |
| ProcessTree.HookSettles | lib/sqlite3/fork_safety.rb:33-56 | of the objects alive after the hook exactly the untracked ones are still open for writing |
| ForkSafety.Initialize | lib/sqlite3/database.rb:142-183 | the mode each option gives, the conflicts that raise, and `@readonly` equal to the flag SQLite gets on every path |
| ForkSafety.Tracker.Track | lib/sqlite3/fork_safety.rb:27-31 | tracking appends |
| ForkSafety.Tracker.DiscardOne | lib/sqlite3/fork_safety.rb:35-54 | one database, which may die before any use of its weak reference: closed if it lives to the call, and a first warning if it lives to be asked |
| ForkSafety.Tracker.Discard | lib/sqlite3/fork_safety.rb:33-56 | the hook of `ProcessTree.Fork`; the list is empty, and there is one warning if and only if some turn finds a live database open for writing and warnings are not suppressed |
| ForkSafety.CloseEffect | ext/sqlite3/database.c:65-72 | closing an inherited writable database discards it and frees nothing, unless its fork guard was lost |
| ForkSafety.HookOnlyDiscards | lib/sqlite3/fork_safety.rb:39-50 | the same for the whole hook: nothing else changes, and no connection is released but where a guard was lost |
| ForkSafety.ChildHoldsNoWritable | lib/sqlite3/fork_safety.rb:9-15 | after any fork through Ruby in any run, no live database in the child whose `initialize` completed holds a writable connection, and its parent's image is untouched |
| ForkSafety.HookClosesWhatWasOpened | lib/sqlite3/fork_safety.rb:9-15 | from the moves alone: a database opened for writing by a completed `initialize`, and still open when its process forks through Ruby, is closed in the child, its connection discarded unless its guard was lost |
| ForkSafety.WarningMeansClosing | lib/sqlite3/fork_safety.rb:39-50 | a warning is due if the hook closes anything, and it closes something if one is due and nothing dies |
| Pinning.Database.Initialize | lib/sqlite3/database.rb:173-176 | a second `initialize` sets both instance variables anew and leaves the struct as it is |
| Pinning.Database.DefineFunctionWithFlags | ext/sqlite3/database.c:603-633 | a block SQLite accepted is listed, a refused one is not; the struct then points at the instance variable's list |
| Pinning.Database.DefineAggregator2 | ext/sqlite3/aggregator.c:208-263 | the same for aggregators, with the arity range |
| Pinning.Database.CreateCollation | ext/sqlite3/database.c:851-872 | the instance variable's hash follows SQLite's table and becomes the struct's; nil removes from the table and stays in the hash |
| Pinning.RegistrationReachesSqlite | ext/sqlite3/aggregator.c:246-257 | an accepted block or aggregator is what SQLite has under its key on the open connection, and all other entries of all connections stay |
| Pinning.CollationReachesSqlite | ext/sqlite3/database.c:859-864 | the same for comparators, and nil takes the entry away |
| Pinning.RegistrationIsListed | ext/sqlite3/database.c:628-630 | what an accepted registration leaves in the instance variables and the struct, nil comparators included |
| Pinning.HandlerIsSet | ext/sqlite3/database.c:396-407 | a handler that is set is the one called; the others stay |
| Pinning.ConnectionsComeAndGo | lib/sqlite3/database.rb:173-176 | what close, a freed connection and a second `initialize` do to tables, lists and struct |
| Pinning.Database.PinArray | ext/sqlite3/database.c:77-88 | marks the array and exactly its elements |
| Pinning.Database.PinInstances | ext/sqlite3/aggregator.c:265-269 | marks exactly the live instances of a wrapper |
| Pinning.Database.PinAggregators | ext/sqlite3/database.c:108-120 | marks the wrappers and the instances of each |
| Pinning.Database.PinHash | ext/sqlite3/database.c:90-104 | marks exactly the values |
| Pinning.Database.DatabaseMark | ext/sqlite3/database.c:122-135 | marks exactly the three handlers, the listed blocks, wrappers and comparators, and the live instances of every listed wrapper |
| Pinning.CollationKeeps | ext/sqlite3/database.c:851-872 | however many Ruby names SQLite reads as one, a comparator in the latest connection's table is still in the hash, reopened objects included |
| Pinning.RegistrationKeeps | ext/sqlite3/database.c:626-630 | function and aggregator registrations keep what the latest connection holds, and every wrapper, listed |
| Pinning.CallbackKeeps | ext/sqlite3/aggregator.c:54-113 | aggregate callbacks keep live instances listed under listed wrappers, also where an exception takes xFinal past its clean-up |
| Pinning.RunKeeps | ext/sqlite3/database.c:106-120 | all of it in every reachable state, closed and reopened databases included |
| Pinning.CurrentIsPinned | ext/sqlite3/database.c:122-135 | in every run whatever the latest connection holds is marked, and so are handlers and live instances |
| Pinning.WrappersArePinned | ext/sqlite3/aggregator.c:237-240 | in every run the wrappers that any connection holds are marked |
| Pinning.HeldIsPinned | ext/sqlite3/database.c:122-135 | in every undisturbed run whatever raw value SQLite holds, `database_mark` marks |
| Pinning.PinnedIffUndisturbed | ext/sqlite3/database.c:628-630 | if no object is handed over twice, all that is held is marked all the way if and only if the run is undisturbed |
| Pinning.OneConnectionIsUndisturbed | lib/sqlite3/database.rb:142-183 | a run with a single `initialize` is undisturbed |
| Pinning.ReopenedObjectUnpins | lib/sqlite3/database.rb:175-176 | a run after which SQLite holds a block that is not marked |
| Pinning.AggregatorInUse | ext/sqlite3/aggregator.c:246-260 | a run after which SQLite holds a wrapper and a live instance, both marked |
| Aggregator.Callbacks.AggregateInstance | ext/sqlite3/aggregator.c:54-87 | finds or makes the context's instance, with its exception status, and lists it |
| Aggregator.Callbacks.AggregateInstanceDestroy | ext/sqlite3/aggregator.c:92-114 | unlists the instance and sets the slot to nil; when it is fatal |
| Aggregator.Callbacks.AggregatorStep | ext/sqlite3/aggregator.c:116-150 | no method is called after a raise |
| Aggregator.Callbacks.AggregatorFinal | ext/sqlite3/aggregator.c:152-176 | value or error, then the clean-up, unless the conversion raises |
| Aggregator.WithoutKeepsDistinct | ext/sqlite3/aggregator.c:109-111 | deletion keeps the array free of duplicates |
| Aggregator.TouchKeepsOthers | ext/sqlite3/aggregator.c:54-176 | what happens to one context leaves every other context's slot, instance, result and calls alone |
| Aggregator.WithInstanceKeeps | ext/sqlite3/aggregator.c:54-87 | a callback always has an instance to work with, and it holds the fold so far |
| Aggregator.SteppedKeeps | ext/sqlite3/aggregator.c:116-150 | xStep advances its own group's fold by its row |
| Aggregator.FinalizedKeeps | ext/sqlite3/aggregator.c:152-176 | xFinal reports its own group's value, for a context that never stepped too |
| Aggregator.ExpectedIs | ext/sqlite3/aggregator.c:54-176 | what a group on its own comes to: `new` without rows, `finalize` of the fold, or an error |
| Aggregator.CallbackAfterFinalIsFatal | ext/sqlite3/aggregator.c:82-84 | a callback for a context that is over does reach rb_fatal |
| Aggregator.RunKeeps | ext/sqlite3/aggregator.c:54-176 | the invariant after every interleaving of callbacks |
| Aggregator.AggregateRefinesFold | ext/sqlite3/aggregator.c:54-176 | each finished context hands over `finalize` of the fold of `step` over exactly its rows, or an error if a method raised, with exactly those calls |
| Aggregator.NothingAfterRaise | ext/sqlite3/aggregator.c:18-20 | only a group's last call can have raised |
| Aggregator.InstancesAreThoseInFlight | ext/sqlite3/aggregator.c:66-113 | no rb_fatal is reached; `-instances` is without duplicates exactly the contexts started and not finished, and empty at rest |
| Aggregator.CleanUpNeedsConvertible | ext/sqlite3/aggregator.c:160-175 | clean-up happens if and only if the value converts |
| Aggregator.PendingIffReported | ext/sqlite3/aggregator.c:160-173 | at rest an exception is pending if and only if some context reported an error |
| Aggregator.RunPending | ext/sqlite3/aggregator.c:40-48 | the pending exception is the one raised last, after every history |
| CallbackExceptions.FirstFailingArgument | ext/sqlite3/database.c:563-566 | conversion stops at the first argument that raises |
| CallbackExceptions.ScalarOutcomeIs | ext/sqlite3/database.c:554-573 | the first exception of arguments, block and conversion is the outcome, else the block's value |
| CallbackExceptions.ScalarFunction | ext/sqlite3/database.c:554-588 | a raise in converting the arguments, in the block or in converting its value, and nothing else, is reported and left pending |
| CallbackExceptions.RaiseReachesStep | ext/sqlite3/statement.c:142-150 | for every history of callbacks over any number of steps, nested ones included: the step raises what was raised last if and only if no rescue cleared it since, and is then neither at a row nor at the end; if nothing was raised, nothing is pending |
| CallbackExceptions.WhoClearsPending | ext/sqlite3/statement.c:143-149 | what takes the pending exception away and what leaves it |
| CallbackExceptions.ReportedIff | ext/sqlite3/aggregator.c:168-173 | SQLite is told of an error in a step if and only if a scalar function of it raised or a group finished in it fails on its own |
| CallbackExceptions.RaiseHasCause | ext/sqlite3/aggregator.c:116-150 | a raise of the step's own callbacks belongs to a scalar function, to a group finished in it that fails, or to a failed group of it in flight |
| CallbackExceptions.RowNeedsFailedGroupInFlight | ext/sqlite3/statement.c:142-206 | after a raise the program starts over, or a failed group is in flight; when exactly SQLite may still have a row |
| CallbackExceptions.InternalErrorNeedsLostException | ext/sqlite3/aggregator.c:168-173 | the internal message reaches the user if and only if it was reported and no exception stands: cleared by a rescue, or raised in an earlier step by a group started there |
| CallbackExceptions.NestedStepTakesException | ext/sqlite3/statement.c:143-149 | a nested step raises the outer step's exception, which is rescued, and the outer step fails with the internal message |
| CallbackExceptions.GroupAcrossSteps | ext/sqlite3/aggregator.c:54-176 | a history in which both happen |
| Cursor.ReadsAll | lib/sqlite3/resultset.rb:48-52 | a `while` read is complete if and only if nothing raised, the block included, and the run ended well, and then has every row in order |
| Cursor.ReadsToCut | ext/sqlite3/statement.c:142-206 | any read gives exactly the rows up to the first turn that raises or ends the run |
| Cursor.LoopEndsQuietly | lib/sqlite3/statement.rb:141-147 | a `loop` read ends without an error at the end of the run or at a StopIteration of a callback or of the block, and differs from a `while` read exactly at the latter |
| Cursor.StopIterationIsSwallowed | lib/sqlite3/statement.rb:141-147 | runs whose exception the one reader raises and the other does not |
| Cursor.Statement.Step | ext/sqlite3/statement.c:122-211 | one pulse of the run is answered; stable at the end; the pending exception is cleared; which outcomes leave the statement at the end, partway or at the start |
| Cursor.Statement.ResetBang | ext/sqlite3/statement.c:332-347 | back to row zero on a reset machine, from anywhere |
| Cursor.Statement.ClearBindingsBang | ext/sqlite3/statement.c:354-369 | every slot NULL; from the end this is a restart, partway the run goes on |
| Cursor.UnsetIsNull | ext/sqlite3/statement.c:354-369 | cleared bindings are NULL in every slot and nothing else |
| Cursor.Statement.BindParam | ext/sqlite3/statement.c:236-325 | placeholder lookup, and the error cases in the order the code tests them |
| Cursor.Statement.BindFlat | lib/sqlite3/statement.rb:70-80 | the loop makes the calls in order and stops at the first that raises; on a statement that cannot be used that is the first of all |
| Cursor.Statement.BindParams | lib/sqlite3/statement.rb:70-80 | the same on any nesting of arrays and hashes |
| Cursor.Statement.Each | lib/sqlite3/statement.rb:141-147 | yields the remaining rows up to a raise, a callback's or the block's, ends done if and only if there was none, raises what was raised unless it is a StopIteration, starts the program at most once |
| Cursor.Statement.Execute | lib/sqlite3/statement.rb:96-106 | binds on a reset machine from any state and stands at row zero, or has run to the end if there are no columns |
| Cursor.Statement.ExecuteBang | lib/sqlite3/statement.rb:122-125 | starts the program exactly once with the new bindings, whatever the column count, and returns that run's rows, read as `each` reads them |
| Cursor.Statement.Columns | lib/sqlite3/statement.rb:136-139 | cached names are the statement's names |
| ResultSets.ResultSet.Reset | lib/sqlite3/resultset.rb:21-24 | binds on a reset machine and stands at row zero |
| ResultSets.ResultSet.Each | lib/sqlite3/resultset.rb:48-52 | the remaining rows up to a raise, which is raised on, although it stops at nil instead of asking `done?` |
| ResultSets.ResultSet.NextHash | lib/sqlite3/resultset.rb:85-90 | the next answer of array mode, as a hash |
| ResultSets.ResultSet.EachHash | lib/sqlite3/resultset.rb:56-60 | row for row the hashes of array mode, ending together and for the same reason |
| ResultSets.LastColumnWins | lib/sqlite3/resultset.rb:89 | keys are the column names, each with the value of the last column so named |
| ResultSets.FirstValueModes | lib/sqlite3/database.rb:376-383 | both modes give the same first value on every row if and only if the first name is not repeated |
| ResultSets.NextFirstValue | lib/sqlite3/database.rb:377-381 | the first value of the next row, nil without a row |
| ResultSets.FirstOfIs | lib/sqlite3/database.rb:377-381 | the first value in array mode, that of the last column so named in hash mode, nil without a row |
| ResultSets.GetFirstValue | lib/sqlite3/database.rb:350-383 | the first value of the first row of one single run, in either mode; the statement is closed unless it raised before there was a result set |
| Parameters.FlattenAppend | lib/sqlite3/statement.rb:72 | flattening goes argument by argument |
| Parameters.FlattenIgnoresNesting | lib/sqlite3/statement.rb:72 | wrapping any stretch of the arguments in an array changes nothing |
| Parameters.FlattenKeepsFlat | lib/sqlite3/statement.rb:72 | arguments that are no arrays stay as they are |
| Parameters.ArgumentPlacement | lib/sqlite3/statement.rb:70-80 | the k-th value outside hashes goes to index k however many hashes stand before it; a hash goes out pair by pair |
| Parameters.BindParamsPlacement | lib/sqlite3/statement.rb:70-80 | the same on the arguments of `bind_params` themselves, arrays before and after included, and nothing but they are bound |
| Parameters.NestedPlacement | lib/sqlite3/statement.rb:70-80 | wrapped in arrays with its neighbours an argument goes where it would go without them |
| Parameters.ParameterIndex | ext/sqlite3/statement.c:248-261 | a found placeholder bears the name, and 0 means there is none |
| Parameters.SlotIsPlaceholder | ext/sqlite3/statement.c:248-261 | a number is its own slot, a name that of the placeholder with its colon, 0 if there is none |
| Parameters.CallErrors | ext/sqlite3/statement.c:259-322 | which calls raise, and which of the errors |
| Parameters.ConvertedKeeps | ext/sqlite3/statement.c:263-320 | a value is kept as it is, but for an Integer past 64 bits, which becomes a double |
| Parameters.BoundRaises | lib/sqlite3/statement.rb:70-80 | a list of calls with one that raises: its error, and what the calls before it bound |
| Parameters.BoundStops | lib/sqlite3/statement.rb:70-80 | nothing is bound after a call that raised |
| Parameters.BoundCleanly | ext/sqlite3/statement.c:259-322 | all calls succeed if and only if none has an error of its own |
| Parameters.LastWriteWins | ext/sqlite3/statement.c:263-320 | a slot holds the value of the last call to it |
| Parameters.UncalledSlotKept | ext/sqlite3/statement.c:263-320 | a slot no call goes to keeps its value |
| Parameters.NamedSlots | ext/sqlite3/statement.c:487-510 | the slots of all named placeholders, ascending |
| Parameters.NamedParams | ext/sqlite3/statement.c:487-510 | the loop reports the names of those slots |
| Parameters.ReportedNames | ext/sqlite3/statement.c:504-506 | one name a slot, without its prefix character |
| Parameters.ReportedNameFindsSlot | ext/sqlite3/statement.c:248-261 | a reported name finds its own slot if and only if it is a colon placeholder |
| Parameters.NamedParamsRoundTrip | ext/sqlite3/statement.c:478-510 | if all are, binding every reported name fills exactly the named slots, each with its own value |
| Batch.Database.PrepareAndStep | lib/sqlite3/database.rb:214-223 | whatever happens to one statement, none stays open |
| Batch.Database.StepAndClose | lib/sqlite3/database.rb:299-309 | bound only if the count fits, stepped once, closed on every way out |
| Batch.Database.ExecuteBatch | lib/sqlite3/database.rb:295-313 | terminates, and equals running the pieces of the split text one after another until one raises; open statements are as before |
| Batch.StripTwice | lib/sqlite3/database.rb:296 | stripping is idempotent, so the loop always looks at stripped text |
| Batch.NextPiece | lib/sqlite3/database.rb:298-309 | one turn takes one piece off the split text |
| Batch.LastStatementDecides | lib/sqlite3/database.rb:291 | if nothing raises, the result is what the last statement's own step gives on the database the pieces before it leave; blank pieces after it change nothing |
| Batch.PieceIs | lib/sqlite3/database.rb:299-309 | one piece read off the engine: when it raises, its result and its database |
| Batch.RaiseStopsBatch | lib/sqlite3/database.rb:298-310 | nothing is run after a piece that raised |
| Batch.BlankPiecesDoNothing | lib/sqlite3/database.rb:300 | a batch of blank pieces leaves the initial result and the database |
| Batch.BatchIsBracketed | lib/sqlite3/database.rb:214-223 | the history is one prepare-step-close bracket a piece, in order, also when a piece raises, and each step has the variables if their number fits |
| Batch.StatementsMakeUpText | lib/sqlite3/database.rb:295-310 | the statements of any text make it up as far as its first NUL, whitespace aside |
| Batch.SplitLosesNothing | lib/sqlite3/database.rb:295-310 | nothing is skipped and nothing run twice if and only if no NUL stands inside the text |
| Transaction.Database.ExecuteCommand | lib/sqlite3/database.rb:669-681 | a command out of place or refused fails and changes nothing |
| Transaction.Database.TransactionDo | lib/sqlite3/database.rb:646-663 | the abort flag picks the command that the block's exit calls for |
| Transaction.Database.Run | lib/sqlite3/database.rb:652-659 | blocks of every form, nested calls and rescues included |
| Transaction.OneFinalCommand | lib/sqlite3/database.rb:646-663 | for every block exactly one command follows it, autocommit holds again unless SQLite refused it, and a block that ended the transaction itself makes the call raise |
| Transaction.NestedNeverStarts | lib/sqlite3/database.rb:628-630 | a nested call, and one whose begin SQLite refuses, raises before its block runs and, rescued, leaves everything as it was |
| Transaction.RunsItsCourse | lib/sqlite3/database.rb:652-654 | inside a transaction the committed data cannot change, until a failing statement ends it: then what came before leaves no trace and the rest runs as outside of any |
| Transaction.TransactionIsAtomic | lib/sqlite3/database.rb:646-663 | for every block without explicit control: all or nothing, the old data if a StandardError left the block, else the block's result, as long as no failing statement ends the transaction; what is left otherwise |
| Transaction.RaisesYetChanges | lib/sqlite3/database.rb:652-659 | for the same blocks, exactly when the call raises although the committed data changed |
| Transaction.FlatBlockLosesAtomicity | lib/sqlite3/database.rb:652-659 | without nested calls, the same read off the block alone, under every schedule |
| Transaction.RescuedFailureLosesAtomicity | lib/sqlite3/database.rb:652-659 | a block that does |
| Transaction.ExplicitCommand | lib/sqlite3/database.rb:669-681 | an explicit begin, commit or rollback in a block: what it does, and that it changes no data and raises if it is refused or out of place |
| Transaction.ExplicitTransaction | lib/sqlite3/database.rb:643-645 | a block between an explicit begin and rollback leaves the data as it was, between begin and commit its own result |
| Transaction.BlocksCompose | lib/sqlite3/database.rb:652-656 | a sequence goes on after a normal end only, a rescue catches StandardErrors only |
| Transaction.StatementsRun | lib/sqlite3/database.rb:652-654 | writes, failures and exits, within a transaction and outside of any |
| Int64.BignumToInt64Packing | ext/sqlite3/sqlite3.c:9-31 | succeeds if and only if the value is in the signed 64-bit range, and then returns it |
| Int64.BignumToInt64Digits | ext/sqlite3/sqlite3.c:33-59 | the same for every digit width and every normalised digit array |
| Int64.DigitsExist | ext/sqlite3/sqlite3.c:36-47 | every magnitude has a normalised digit array at every width |
| Int64.LongerThanWindow | ext/sqlite3/sqlite3.c:41 | too many digits means out of range |
| Int64.ShorterThanWindow | ext/sqlite3/sqlite3.c:42 | fewer digits than the window means in range |
| Int64.TopDigitDecides | ext/sqlite3/sqlite3.c:44-56 | the top digit against the digit of bit 63 decides, and on equality the value is 2^63 plus the lower digits |
| Int64.BindInteger | ext/sqlite3/statement.c:300-312 | an Integer is bound as itself on the whole 64-bit range, else as a double |
| Int64.ResultInteger | ext/sqlite3/database.c:507-522 | what an Integer returned from a function becomes, for 32-bit and 64-bit longs |
| Int64.RoutesCompared | ext/sqlite3/database.c:507-522 | the integers on which the two routes differ, exactly |
| Quoting.FirstOpening | lib/sqlite3/pragmas.rb:641 | the leftmost quote that starts a line |
| Quoting.LastClosing | lib/sqlite3/pragmas.rb:641 | the rightmost quote that ends a line |
| Quoting.InfoRow.TweakDefault | lib/sqlite3/pragmas.rb:637-646 | only the default's entry changes, and to its unquoted value |
| Quoting.UnpairQuote | lib/sqlite3/database.rb:113-115 | unpairing undoes quoting |
| Quoting.QuoteIsCharacterwise | lib/sqlite3/database.rb:113-115 | quoting goes character by character |
| Quoting.QuoteOfCharacter | lib/sqlite3/database.rb:113-115 | a quote is doubled, anything else stays |
| Quoting.UnpairTakesPairs | lib/sqlite3/pragmas.rb:642-644 | one of two quotes in a row goes, a single one stays |
| Quoting.QuoteKeepsNullLines | lib/sqlite3/pragmas.rb:639 | quoting neither makes nor destroys an interior null line |
| Quoting.LiteralNullLine | lib/sqlite3/pragmas.rb:639 | the literal's own quotes keep its first and last line from being null |
| Quoting.QuoteRoundTrip | lib/sqlite3/pragmas.rb:634-646 | the round trip, and exactly when it fails |
| Quoting.OtherDefaults | lib/sqlite3/pragmas.rb:637-646 | defaults without quotes stay, double-quoted ones lose theirs, and a null line or no default is nil |
| SqlError.MarkLines | lib/sqlite3/errors.rb:23-33 | one caret line, after the line that holds the offset, blanks making up the rest; none past the end |
| SqlError.SqlExcerpt | lib/sqlite3/errors.rb:19-34 | the whole text for every SQL and every offset, negative ones included, and the caret's line and column |
| SqlError.CaretLineUnique | lib/sqlite3/errors.rb:25-28 | only one line can hold the offset |
| SqlError.LinesCover | lib/sqlite3/errors.rb:24 | lines are the text cut after its newlines |
| SqlError.ChompTakesOne | lib/sqlite3/errors.rb:28 | one line end goes, and no more |
| SqlError.ExcerptIsChomp | lib/sqlite3/errors.rb:21-34 | without its caret line the excerpt is the offset-less text if and only if no CRLF comes before the end |
| BusyRetry.TimeoutHandler.Call | lib/sqlite3/database.rb:696-705 | the first call sets the deadline and is granted, a later one if it is in time |
| BusyRetry.TimeoutHandler.Episode | ext/sqlite3/database.c:359-370 | grants the longest prefix of calls that are all in time |
| BusyRetry.LongestGranted | lib/sqlite3/database.rb:693-706 | no longer prefix is in time |
| BusyRetry.RetriesBounded | lib/sqlite3/database.rb:693-706 | on a forward clock exactly the calls in time are granted; with millisecond sleeps at most timeout plus two |
| BusyRetry.BoundIsReached | lib/sqlite3/database.rb:698-704 | that bound is attained for every timeout |

## Left out

- Cursor.Statement.ClearBindingsBang: a program that is running keeps the run it started with; whether SQLite reads cleared parameters again in the middle of a run is not modelled.
- Cursor.Statement.Each: the block does not touch the statement it iterates over, and does not leave by `break` or `throw`; what `each` returns is not modelled.
- CallbackExceptions.RaiseReachesStep: an exception that a nested step raised and no one rescues counts as pending until the callback it leaves has ended; `ensure` clauses that step statements on its way out are not modelled.
- Handles.Database.DiscardDb: asks for an open database; the C function passes the handle on unchecked and is private.
- ProcessTree.ActKeeps: Backup objects, which also keep connections alive, are not in the image, and the program does not call `open_v2` directly or `discard` on closed objects through `send`; a second `initialize` of either object is in the model. `initialize` is one act: no fork comes between its open and its tracking.
- Pinning.HeldIsPinned: the hash that `collations` returns is not changed or frozen by the program; entries removed from it would no longer be marked.
- Aggregator.AggregateRefinesFold: handler instances share no state, so a method's outcome depends on its own instance and row; what `new` makes may differ from context to context.
- Aggregator.Callbacks.AggregateInstance: the fatal error on running out of memory is not modelled.
- ForkSafety.Tracker.Discard: objects become garbage at any point of the loop; their finalizers run after it.
- Quoting.InfoRow.TweakDefault: rows hold strings and nil; the type column and the loop of `table_info` are not modelled.
- SQLite internals, parsing, file and VFS operations, extension loading: foreign code, kept as the abstract machines above.
- Journals of attached databases: discarding closes the file of each schema but only the main journal, and so does the model.
- `statement_timeout=`: its callback stores the current time as the deadline, so there is no bound to prove.
- Trace, authorizer, busy and collation callbacks that raise: they unwind through SQLite unprotected.
- Backup, status, error code and change counters, pragma getters and setters, constant tables: thin wrappers or table lookups.
- Text encodings on bind and read, interned names, frozen rows, the UTF-16 file name check: library behaviour.
- `execute_batch2`, `execute2`, `query` with a block, FunctionProxy and the create_aggregate shims: they add only easy members to what is here.
