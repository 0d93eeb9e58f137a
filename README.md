# Index lifecycle helpers of Neo4j, modelled and verified in Dafny

This project models five small parts of Neo4j's kernel and Cypher runtime, and proves what they promise.

- **Index entry updates** (`index_entry_update.dfy`). An `IndexEntryUpdate` is one entity's change against one index schema: an addition, a removal or a change of the indexed values. The model covers:
  - the three constructors;
  - `values()` and `beforeValues()`;
  - `equals`/`hashCode`.
  The update class itself lives outside these files, so the model states exactly what `IndexEntryUpdateTest` asserts about it.
- **Index population failures** (`index_population_failure.dfy`). A failure is built from a throwable or from a string. Either way it can be rendered as text or turned into an `IndexPopulationFailedKernelException`. The file also models the `appendCauseOfFailure` text layout, with a parser proved to be its exact inverse.
- **Cause-chain utilities** (`exceptions.dfy`). A throwable is a heap object with a cause link and a suppressed list.
  - The loops `peel`, `rootCause` and the three `contains` overloads are proved against the ghost sequence that is the cause chain.
  - The recursive `findCauseOrSuppressed` is proved against a ghost set of the throwables it can reach and a ghost rank that decreases along every cause and suppressed link. It is shown to be sound and complete over the whole hierarchy.
  - The two mutators, `combine` and `chain`, are proved to change exactly the cause of the chain's root, or exactly the suppressed list of one throwable.
  - The classification rethrows `throwIfUnchecked` and `throwIfInstanceOf` are modelled as functions.
- **Online index sampling** (`index_sampling.dfy`). `OnlineIndexSamplingJob.run` reads a sample through the index proxy's reader and sampler. It replaces the index's row in the statistics store only when the proxy reports `ONLINE`; otherwise it leaves the store alone. The two test scenarios are included as methods whose postconditions give the final state of the store.
- **Naive query subscription** (`query_subscription.dfy`). This is a demand-driven state machine that reads a whole query result into memory on the first `request` and serves it record by record.
  - Each method of the class is proved to perform one step function on a snapshot of its fields plus the subscriber's log of callbacks.
  - The lemmas after the class state what those steps guarantee:
    - saturation of the demand;
    - one `onResult`, on the first request only;
    - the exact callbacks for each served record;
    - how a throwing callback ends serving;
    - what `await` reports.

`wrappers.dfy` holds the `Option` and `Result` types shared by the modules.

## Model

| member | source | states |
|---|---|---|
| IndexEntryUpdates.ForLabel | community/kernel/src/test/java/org/neo4j/kernel/api/index/IndexEntryUpdateTest.java:42 | the schema is on the given label and has exactly the given property keys, in order |
| IndexEntryUpdates.IndexEntryUpdate.BeforeValues | community/kernel/src/test/java/org/neo4j/kernel/api/index/IndexEntryUpdateTest.java:69-81 | beforeValues() succeeds exactly for a change; for an addition or a removal it fails with UnsupportedOperation of that mode |
| IndexEntryUpdates.Add | community/kernel/src/test/java/org/neo4j/kernel/api/index/IndexEntryUpdateTest.java:48-56 | an addition keeps its entity, schema and values exactly; its beforeValues() is unsupported; it is well formed iff there is one value per schema property |
| IndexEntryUpdates.Remove | community/kernel/src/test/java/org/neo4j/kernel/api/index/IndexEntryUpdateTest.java:58-67 | a removal keeps its entity, schema and values exactly; its beforeValues() is unsupported; it is well formed iff there is one value per schema property |
| IndexEntryUpdates.Change | community/kernel/src/test/java/org/neo4j/kernel/api/index/IndexEntryUpdateTest.java:103-116 | a change returns its before values from beforeValues() and its after values from values(), unchanged and in order |
| IndexEntryUpdates.ChangeSingle | community/kernel/src/test/java/org/neo4j/kernel/api/index/IndexEntryUpdateTest.java:106-113 | the single-value change has the one-element before and after sequences |
| IndexEntryUpdates.IndexEntryUpdate.Values | community/kernel/src/test/java/org/neo4j/kernel/api/index/IndexEntryUpdateTest.java:54-55 | values() has one value per schema property in a well-formed update; Add, Remove and Change state it is exactly the values given |
| IndexEntryUpdates.IndexEntryUpdate.Equals | community/kernel/src/test/java/org/neo4j/kernel/api/index/IndexEntryUpdateTest.java:39-46 | equals() holds exactly when mode, entity, schema, values and before values all agree, which is equality of the update values |
| IndexEntryUpdates.EqualUpdatesHaveEqualHashCodes | community/kernel/src/test/java/org/neo4j/kernel/api/index/IndexEntryUpdateTest.java:45 | updates that are equal have equal hash codes |
| IndexEntryUpdates.SameAdditionsAreEqual | community/kernel/src/test/java/org/neo4j/kernel/api/index/IndexEntryUpdateTest.java:39-46 | two additions built from the same entity, schema and value are equal and hash alike |
| IndexEntryUpdates.SingleDiffersFromComposite | community/kernel/src/test/java/org/neo4j/kernel/api/index/IndexEntryUpdateTest.java:48-67 | a single-value addition or removal on a one-property schema is never equal to a two-value one on a two-property schema |
| IndexEntryUpdates.SingleValueChangeEqualsSingletonArrays | community/kernel/src/test/java/org/neo4j/kernel/api/index/IndexEntryUpdateTest.java:83-101 | a change built from single values equals the change built from one-element arrays of them |
| IndexPopulationFailures.IndexPopulationFailure.AsString | community/kernel/src/main/java/org/neo4j/kernel/impl/api/index/IndexPopulationFailure.java:33-60 | a string failure renders as exactly its string; a throwable failure renders as the throwable's stringification; the text is null exactly when the string or the throwable is null |
| IndexPopulationFailures.IndexPopulationFailure.AsIndexPopulationFailure | community/kernel/src/main/java/org/neo4j/kernel/impl/api/index/IndexPopulationFailure.java:43-67 | the exception carries the given index description and the original throwable or string as its cause |
| IndexPopulationFailures.ConversionIgnoresDescriptor | community/kernel/src/main/java/org/neo4j/kernel/impl/api/index/IndexPopulationFailure.java:43-67 | the exception is the same whatever schema descriptor is passed |
| IndexPopulationFailures.AppendCauseOfFailure | community/kernel/src/main/java/org/neo4j/kernel/impl/api/index/IndexPopulationFailure.java:71-75 | the text starts with the message, the cause-of-failure heading and a line separator, and ends with the rule line |
| IndexPopulationFailures.CauseOfFailureRoundTrip | community/kernel/src/main/java/org/neo4j/kernel/impl/api/index/IndexPopulationFailure.java:71-75 | the message and the cause are read back unchanged from the layout: the cause sits between the two rule lines |
| IndexPopulationFailures.ParsedTextIsTheLayout | community/kernel/src/main/java/org/neo4j/kernel/impl/api/index/IndexPopulationFailure.java:71-75 | every text the parser accepts is exactly the layout of the message and cause it yields, so the parser is the inverse of the layout |
| Exceptions.Throwable.InitCause | community/common/src/main/java/org/neo4j/helpers/Exceptions.java:305 | initCause sets the cause once; a second call fails with IllegalState and self-causation with IllegalArgument, and a failing call changes nothing |
| Exceptions.Throwable.AddSuppressed | community/common/src/main/java/org/neo4j/helpers/Exceptions.java:350 | addSuppressed appends to the suppressed list (when suppression is enabled), refuses self-suppression and leaves the cause alone |
| Exceptions.Stringify | community/common/src/main/java/org/neo4j/helpers/Exceptions.java:213-223 | null for null, otherwise the printed stack trace |
| Exceptions.ThrowIfUnchecked | community/common/src/main/java/org/neo4j/helpers/Exceptions.java:73-84 | rejects null; rethrows the same throwable exactly when it is a RuntimeException or an Error, and returns normally otherwise |
| Exceptions.ThrowIfInstanceOf | community/common/src/main/java/org/neo4j/helpers/Exceptions.java:113-120 | rejects null; rethrows the same throwable exactly when it is an instance of the class (a RuntimeException counts as an Exception) |
| Exceptions.UncheckedIsRuntimeExceptionOrError | community/common/src/main/java/org/neo4j/helpers/Exceptions.java:73-120 | throwIfUnchecked behaves as throwIfInstanceOf RuntimeException followed by throwIfInstanceOf Error |
| Exceptions.Peel | community/common/src/main/java/org/neo4j/helpers/Exceptions.java:137-148 | the result is the first throwable of the cause chain that toPeel rejects, or null exactly when toPeel accepts the whole chain |
| Exceptions.RootCause | community/common/src/main/java/org/neo4j/helpers/Exceptions.java:157-169 | null is refused with IllegalArgumentException and its message; otherwise the result is the last throwable of the chain, the one without a cause |
| Exceptions.Contains | community/common/src/main/java/org/neo4j/helpers/Exceptions.java:270-281 | true exactly when some throwable of the cause chain satisfies the predicate (false for null) |
| Exceptions.InstanceOfAny | community/common/src/main/java/org/neo4j/helpers/Exceptions.java:259 | instanceOfAny holds iff the throwable is an instance of some listed class; order and repetition do not matter, and no classes means false |
| Exceptions.IsSubstringIsOccurrence | community/common/src/main/java/org/neo4j/helpers/Exceptions.java:260 | String.contains, as used on the message, holds exactly when the text occurs at some position of the message |
| Exceptions.ContainsInstanceOf | community/common/src/main/java/org/neo4j/helpers/Exceptions.java:265-268 | true exactly when some throwable of the chain is an instance of one of the classes |
| Exceptions.ContainsMessage | community/common/src/main/java/org/neo4j/helpers/Exceptions.java:257-262 | true exactly when some throwable of the chain has a message containing the text and is an instance of one of the classes |
| Exceptions.Combine | community/common/src/main/java/org/neo4j/helpers/Exceptions.java:288-307 | returns the other argument when one is null; otherwise makes second the cause of the root of first's chain and returns first; when second's chain is acyclic and shares no throwable with first's, first's chain becomes the old chain followed by second's; initCause's refusals pass through unchanged; no other cause and no suppressed list changes |
| Exceptions.Chain | community/common/src/main/java/org/neo4j/helpers/Exceptions.java:341-353 | returns current when initial is null; otherwise appends current (when non-null) to initial's suppressed list and returns initial; the cause is untouched |
| Exceptions.FindCauseOrSuppressed | community/common/src/main/java/org/neo4j/helpers/Exceptions.java:177-211 | empty for null; e itself when e matches; otherwise the first match of the cause's hierarchy, then of each suppressed throwable's in list order, skipping self-references |
| Exceptions.FirstMatchSound | community/common/src/main/java/org/neo4j/helpers/Exceptions.java:177-211 | whatever the search returns satisfies the predicate and lies in the searched graph |
| Exceptions.FirstMatchAmongSound | community/common/src/main/java/org/neo4j/helpers/Exceptions.java:195-209 | whatever the search of the suppressed list returns satisfies the predicate |
| Exceptions.SearchComplete | community/common/src/main/java/org/neo4j/helpers/Exceptions.java:177-211 | when any throwable of the hierarchy of causes and suppressed throwables (self-references skipped) matches, the search finds a match |
| Exceptions.SearchCompleteAmong | community/common/src/main/java/org/neo4j/helpers/Exceptions.java:195-209 | when a match lies below one of the suppressed throwables from position i on, the search of the suppressed list finds one |
| Exceptions.CauseChainMatchIsFound | community/common/src/main/java/org/neo4j/helpers/Exceptions.java:177-211 | when contains would find a match on the cause chain, findCauseOrSuppressed finds one too |
| IndexSampling.IndexProxy.GetState | community/kernel/src/test/java/org/neo4j/kernel/impl/api/index/sampling/OnlineIndexSamplingJobTest.java:52 | getState() reports the proxy's current state |
| IndexSampling.IndexProxy.NewReader | community/kernel/src/test/java/org/neo4j/kernel/impl/api/index/sampling/OnlineIndexSamplingJobTest.java:92 | newReader() opens the proxy's reader, or fails with IndexNotFoundKernelException |
| IndexSampling.IndexStatisticsStore.ReplaceIndexCounts | community/kernel/src/test/java/org/neo4j/kernel/impl/api/index/sampling/OnlineIndexSamplingJobTest.java:58 | replaces exactly the row of the index id, and records the call |
| IndexSampling.OnlineIndexSamplingJob.constructor | community/kernel/src/test/java/org/neo4j/kernel/impl/api/index/sampling/OnlineIndexSamplingJobTest.java:51 | the job is bound to its index id, proxy, store and description |
| IndexSampling.SampleAndStoreWhenOnline | community/kernel/src/test/java/org/neo4j/kernel/impl/api/index/sampling/OnlineIndexSamplingJobTest.java:47-60 | with the index ONLINE and a sample of 23 entries with 21 unique values, the store receives exactly one replacement, for index 1, with those figures |
| IndexSampling.SampleButDoNotStoreWhenFailed | community/kernel/src/test/java/org/neo4j/kernel/impl/api/index/sampling/OnlineIndexSamplingJobTest.java:62-74 | with the index FAILED, the store receives no call and stays empty |
| IndexSampling.OnlineIndexSamplingJob.Run | community/kernel/src/test/java/org/neo4j/kernel/impl/api/index/sampling/OnlineIndexSamplingJobTest.java:47-74 | when the proxy is ONLINE and the reader and sampler yield a sample, the store receives exactly one replaceIndexCounts, for the job's index, with the sample's figures; in every other case the store is untouched; no other index's row ever changes |
| QuerySubscriptions.WrapLong | community/cypher/runtime-util/src/main/java/org/neo4j/cypher/result/NaiveQuerySubscription.java:50 | the long addition wraps into the long range, is exact when in range, and turns a sum past Long.MAX_VALUE negative |
| QuerySubscriptions.CheckForOverflow | community/cypher/runtime-util/src/main/java/org/neo4j/cypher/result/NaiveQuerySubscription.java:125-135 | a negative value becomes Long.MAX_VALUE, and a non-negative one is kept |
| QuerySubscriptions.DemandSaturates | community/cypher/runtime-util/src/main/java/org/neo4j/cypher/result/NaiveQuerySubscription.java:48-53 | the new demand is the sum when that stays a non-negative long, and Long.MAX_VALUE otherwise; a non-negative request never lowers it |
| QuerySubscriptions.QuerySubscriber.Notify | community/cypher/runtime-util/src/main/java/org/neo4j/cypher/result/NaiveQuerySubscription.java:85-91 | a callback is appended to the subscriber's log and throws what the subscriber throws at that position |
| QuerySubscriptions.AfterServe | community/cypher/runtime-util/src/main/java/org/neo4j/cypher/result/NaiveQuerySubscription.java:79-99 | serving keeps the demand a non-negative long and never serves past the buffer |
| QuerySubscriptions.AfterMaterialize | community/cypher/runtime-util/src/main/java/org/neo4j/cypher/result/NaiveQuerySubscription.java:101-123 | after materialising, the result list exists and the state stays valid |
| QuerySubscriptions.AfterAwait | community/cypher/runtime-util/src/main/java/org/neo4j/cypher/result/NaiveQuerySubscription.java:62-77 | await changes no field of the subscription and only appends to the subscriber's log, keeping the state valid |
| QuerySubscriptions.AfterRequest | community/cypher/runtime-util/src/main/java/org/neo4j/cypher/result/NaiveQuerySubscription.java:48-53 | a request keeps the state valid |
| QuerySubscriptions.NaiveQuerySubscription.constructor | community/cypher/runtime-util/src/main/java/org/neo4j/cypher/result/NaiveQuerySubscription.java:42-45 | a new subscription has no demand, nothing served, no result list, no error and is not cancelled |
| QuerySubscriptions.NaiveQuerySubscription.Request | community/cypher/runtime-util/src/main/java/org/neo4j/cypher/result/NaiveQuerySubscription.java:48-53 | request performs exactly the step: raise the demand with saturation, materialise if needed, then serve unless materialising threw |
| QuerySubscriptions.NaiveQuerySubscription.Cancel | community/cypher/runtime-util/src/main/java/org/neo4j/cypher/result/NaiveQuerySubscription.java:56-59 | cancel sets the cancelled flag and changes nothing else: no counter, no buffer, no callback |
| QuerySubscriptions.NaiveQuerySubscription.Await | community/cypher/runtime-util/src/main/java/org/neo4j/cypher/result/NaiveQuerySubscription.java:62-77 | await performs exactly the await step and changes no field of the subscription |
| QuerySubscriptions.NaiveQuerySubscription.MaterializeIfNecessary | community/cypher/runtime-util/src/main/java/org/neo4j/cypher/result/NaiveQuerySubscription.java:101-123 | the first call buffers every visited record in order, records an Exception from accept as the error, propagates any other throwable, then calls onResult(fieldCount); later calls do nothing |
| QuerySubscriptions.NaiveQuerySubscription.ServeResults | community/cypher/runtime-util/src/main/java/org/neo4j/cypher/result/NaiveQuerySubscription.java:79-99 | the serving loop and its catch perform exactly the serve step |
| QuerySubscriptions.NaiveQuerySubscription.ServeRecord | community/cypher/runtime-util/src/main/java/org/neo4j/cypher/result/NaiveQuerySubscription.java:85-91 | one record makes onRecord, one onField per field in order, then onRecordCompleted, stopping after the first callback that throws |
| QuerySubscriptions.DeliverStopsAtFirstFailure | community/cypher/runtime-util/src/main/java/org/neo4j/cypher/result/NaiveQuerySubscription.java:81-98 | callbacks are made in order up to and including the first one that throws, whose throwable is the outcome; with none throwing, all are made |
| QuerySubscriptions.DeliverAppendsPlanned | community/cypher/runtime-util/src/main/java/org/neo4j/cypher/result/NaiveQuerySubscription.java:81-98 | the callbacks made are a prefix of those planned, appended to the earlier log |
| QuerySubscriptions.FieldEventsAreFields | community/cypher/runtime-util/src/main/java/org/neo4j/cypher/result/NaiveQuerySubscription.java:87-90 | the field callbacks are all onField and open no record |
| QuerySubscriptions.ServeEventsShape | community/cypher/runtime-util/src/main/java/org/neo4j/cypher/result/NaiveQuerySubscription.java:83-92 | serving the records from lo to hi opens exactly hi - lo records and calls no onResult |
| QuerySubscriptions.ServeOutcome | community/cypher/runtime-util/src/main/java/org/neo4j/cypher/result/NaiveQuerySubscription.java:79-99 | with no callback throwing, servedRecords becomes min(demand, buffer size) (never lower than before), every planned callback is made and the error is kept; when one throws, the log stops right after it, it becomes the error and servedRecords is the buffer size; demand, buffer and the cancelled flag never change |
| QuerySubscriptions.MaterializeAnnouncesOnce | community/cypher/runtime-util/src/main/java/org/neo4j/cypher/result/NaiveQuerySubscription.java:101-123 | materialising calls onResult(fieldCount) once on the first call (unless accept throws a non-Exception) and makes no callback afterwards |
| QuerySubscriptions.MaterializeKeepsRecordsAndError | community/cypher/runtime-util/src/main/java/org/neo4j/cypher/result/NaiveQuerySubscription.java:101-123 | the first call buffers every record accept() visits, also those before a failure; an Exception (RuntimeExceptions included) becomes the error, any other throwable propagates; later calls change nothing |
| QuerySubscriptions.ServeAnnouncesNoResult | community/cypher/runtime-util/src/main/java/org/neo4j/cypher/result/NaiveQuerySubscription.java:79-99 | serving only appends to the log, and never calls onResult |
| QuerySubscriptions.OnResultOnlyOnFirstRequest | community/cypher/runtime-util/src/main/java/org/neo4j/cypher/result/NaiveQuerySubscription.java:120-121 | of the callbacks a request makes, one is onResult iff it is the first and the result had not been materialised before |
| QuerySubscriptions.OneRecordOpenedPerRecordServed | community/cypher/runtime-util/src/main/java/org/neo4j/cypher/result/NaiveQuerySubscription.java:83-92 | serving with no callback throwing opens exactly one record per record it serves |
| QuerySubscriptions.NothingMoreAfterEverythingServed | community/cypher/runtime-util/src/main/java/org/neo4j/cypher/result/NaiveQuerySubscription.java:48-53 | once the whole buffer has been served (also after a callback threw), a request changes only the demand and makes no callback |
| QuerySubscriptions.AwaitReportsRemaining | community/cypher/runtime-util/src/main/java/org/neo4j/cypher/result/NaiveQuerySubscription.java:62-77 | await returns true iff records remain unserved and the subscription is not cancelled; while records remain nothing changes, otherwise it calls onError(error) if an error was recorded, else onResultCompleted |

## Left out

- The implementation of `IndexEntryUpdate` is not part of this model; only what its test asserts is modelled.
- IndexEntryUpdates.IndexEntryUpdate.HashCode: the formula is this model's own, since the real one is not part of this model. Only its agreement with equality is meant.
- IndexEntryUpdates.ForLabel: only label schemas are modelled, not relationship-type schemas.
- Values are a small stand-in for the storable values (text, integral and boolean), and for a result field's AnyValue (the same, plus no value).
- Exceptions.Stringify: the printed stack trace is a parameter (`printStackTrace`), because it depends on the JVM's stack-trace machinery.
- The thread overload of `stringify` is left out. It formats thread introspection data, and there is no behaviour in it to prove.
- `setMessage` and `withMessage` are left out, because they write a private JDK field by reflection.
- Exceptions.Combine: the new chain (first's chain followed by second's) is promised only when second has an acyclic cause chain that shares no throwable with first's. Otherwise a successful initCause makes the cause links cyclic, and no chain describes the result.
- Exceptions.Combine requires first's cause chain to be acyclic, given as a ghost sequence. On a cyclic first chain the Java loop that finds the root never ends. Second is not walked and may be any throwable.
- Exceptions.Peel, Exceptions.Contains, Exceptions.ContainsInstanceOf and Exceptions.ContainsMessage require an acyclic cause chain, given as a ghost sequence. On a cycle the Java walk ends only if the predicate stops it on the cycle. The model leaves out every cyclic input.
- Exceptions.RootCause requires an acyclic cause chain. On a cycle the Java loop never ends.
- Exceptions.FindCauseOrSuppressed: requires the cause/suppressed graph to be acyclic apart from self-references, witnessed by a ghost rank. On a longer cycle the Java recursion ends only if a match stops it first; otherwise it overflows the stack. The model leaves out every such input.
- Exceptions.ContainsMessage: the text is a non-null string. A null containsMessage makes String.contains throw NullPointerException for any throwable with a message, and that case is not modelled.
- Exceptions.Peel, Exceptions.Contains and Exceptions.FindCauseOrSuppressed: the predicates are total functions that cannot throw. A throwing predicate would propagate out of the Java walk; that is not modelled.
- Exceptions.ContainsMessage: `Predicates.instanceOfAny` is modelled as "an instance of at least one of the listed classes". `String.contains` is modelled as a substring test.
- The class hierarchy is a set of class names on each throwable, listing its class and the superclasses the utilities name. The only subtyping built in is that a RuntimeException is an Exception. A set holding both Error and Exception stands for no Java throwable. On such a set, throwIfUnchecked rethrows and materializeIfNecessary's catch applies.
- Exceptions.Stringify, Exceptions.Peel, Exceptions.Contains and Exceptions.FindCauseOrSuppressed: the predicates and printStackTrace are functions of the throwable that cannot read its mutable cause or suppressed list. A predicate that looks at getCause(), or a stack trace that shows a chain Combine has changed, lies outside these contracts.
- IndexPopulationFailures.AppendCauseOfFailure: `%n` is a parameter (the platform line separator). `String.format`'s rendering of null arguments as "null" is not modelled.
- IndexSampling.OnlineIndexSamplingJob.Run does not say whether a failing reader or sampler (IndexNotFoundKernelException) reaches the caller. It states only that the store is then untouched; the test does not pin this.
- Logging, the duration logger and the log provider are left out.
- NaiveQuerySubscription, subscriber callbacks: they are modelled as a log of callbacks plus a fixed map from log position to the throwable that callback throws. Any behaviour of a real subscriber beyond throwing is not modelled.
- NaiveQuerySubscription, `accept` and the record visitor: modelled as the sequence of records visited plus an optional throwable raised after them. Records visited before a failure stay in the buffer. Record cloning and `release()` are memory management and are not modelled.
- `queryStatistics()` and the argument of `onResultCompleted` are not modelled; `fieldNames()` is reduced to its length.
- QuerySubscriptions.NaiveQuerySubscription.Request: requires the argument to be a long, as the Java signature does.
- servedRecords is a Java int, but its 32-bit range is not modelled: it never exceeds the buffer size.
- QuerySubscriptions.NaiveQuerySubscription.Await: before the first request, the Java code dereferences a null result list. The model returns NullPointer there.
- QuerySubscriptions.NaiveQuerySubscription.ServeRecord is one pass of the serving loop's body, made a method of its own. It adds no behaviour.
- Concurrency: none of the modelled code is concurrent.

## Notes

- **Sampling order.** The sampling job samples the index first and checks for `ONLINE` afterwards. The test's name says the index is sampled but not stored when not online. Either way the store is written only for an online index.
- **Negative requests.** `request` with a negative argument can push the demand below zero. `checkForOverflow` then turns it into Long.MAX_VALUE, so the code treats it like an overflow. `DemandSaturates` states this as written.
