# A verified model of FireRust

FireRust is a single-process Firebase emulator. This project models its stateful
parts in Dafny and proves what they keep over whole runs. Around them, gRPC, HTTP,
SQLite and the Node workers are replaced by atomic steps over maps. Time, random
ids and the outcome of a dispatched function are parameters of the steps.

`dafny verify dfyconfig.toml` checks everything. The modules follow the source:

- **Pub/Sub broker** (`src/pubsub.rs`). `Broker` holds the seven coupled maps and
  what each operation makes of them; `BrokerSteps` keeps the invariant;
  `BrokerRuns` follows a delivery over every run; `BrokerClaims` is about leases and
  flow control, `SqlClaims` about the SQLite claim; `BrokerService` is the class with the loops of the source, proved
  against `Broker`; `Streaming` is the StreamingPull loop on top of it and
  `StreamRuns` that loop among all other clients; `Paging` is the paged listings.
- **Firestore data** (`src/firestore.rs`, parts of `src/ui.rs` and
  `src/functions.rs`). `Values` and `ValueOrder` are the recursive order;
  `FieldPaths` the quoted path parser and its printer; `Documents` nested fields and
  update masks; `Resources` names and index scans; `Writes` single writes, field
  transforms and batches; `Events` the change events of a batch; `Backends` the
  in-memory and the SQLite commit paths; `Query`, `QueryLaws`, `Projections` and
  `QueryPaging` structured queries, `QueryBackends` what each backend reads for them; `Listen` the gRPC listener's difference; `Console` the commits of the
  browser console.
- **Functions outbox** (`src/functions.rs`, `src/persistence.rs`). `Outbox` has the
  SQL statements, `OutboxRuns` runs of them with crashes and failed transitions, and
  `Scheduler` the consumer loop that shares its turn with direct events.
- **Web listen channel** (`src/firestore_web.rs`). `Channel` is the session,
  `ChannelReplay` the client that rebuilds its documents over a lossy network.
- **Storage** (`src/storage.rs`). `Blobs` and `BlobRuns` are save, delete, media read
  and recovery as interleaved steps; `Listing` is delimiter listing with paging.
- **Timestamps**. `Calendar` is the Gregorian conversion, once for each of the three
  files that has a copy.

`Order`, `Paths`, `Sums` and `Wrappers` are shared helpers.

A method over loops or mutable fields states its result or its new state as a
specification function of the old state; the lemmas are about those functions. Where
a protocol is concurrent, each atomic section is one step and a run is any sequence
of admissible steps.

## Assumptions

- Fresh UUIDs differ from every identifier drawn before. The broker state and the
  blob state carry the set of ids in use for this.
- A SQLite transaction is one atomic step. A write that reports an error has not
  changed the tables, with one exception that is modelled: the two statements of a
  terminal delivery failure are not one transaction.
- A double is NaN, an infinity or an exact real number; the two zeros are one value.
  Double addition and the widening of integers stay abstract.
- Encoders (protobuf, JSON, base64) are opaque. A page token stands for the name or
  offset it encodes, and a rendered document for its JSON text.
- Counters and time stamps are unbounded integers where the source would need
  centuries or 2^63 operations to overflow; the saturating integer increment and the
  64-bit to 32-bit cast of target ids are modelled.

## Where the code differs from its documentation, or may surprise

- A comment in `src/functions.rs:234-235` says that writes that change no field emit
  no event. The comparison uses derived equality, under which NaN differs from itself,
  so an in-memory commit reports a change of every stored document that holds a NaN,
  also of documents the batch does not name. The SQLite path compares only the named
  documents. `Events.RecordsRestricted` and `Backends.BackendsAgree` give the exact
  condition, `Backends.UntouchedNaNReported` a case.
- `docs/PERSISTENCE.md` says each event is retried up to five times, and also that
  delivery is at least once. The five bound recorded failures only: a crash or a lost
  acknowledgement after a dispatch leads to another one, without bound
  (`OutboxRuns.CrashesUnbounded`).
- An unset value ties with null in the order but is not equal to it for array union
  (`ValueOrder.EqualityIsTie`).
- A deadline change on a lease that has lapsed but was not yet swept revives it
  (`BrokerClaims.DeadlineChangeExact`).
- The web channel truncates a target id to 32 bits when it removes the target, but
  tells the client the id as sent (`ChannelReplay.RemovalExact`).
- One target whose query fails makes every poll of its web channel fail until it is
  removed (`ChannelReplay.RefreshSucceeds`).
- A poll that acknowledges a number the server never gave leaves nothing to return
  after the timeout (`ChannelReplay.TimeOutAnswers`).
- With a disjunction in its filter, a query can drop accepted documents that lack an
  inequality field of another branch (`Query.DisjunctionDropsDocument`). It keeps an
  accepted document exactly when the document has every order field and every
  inequality field (`QueryLaws.SortableExact`, `QueryLaws.AnswerExact`), and drops none
  when every branch asks for those fields (`QueryLaws.GuaranteedFilterDropsNothing`).
- A stream stops counting a lease that has lapsed. If that lease is extended before
  any sweep, by the stream's own request or by another client, it is alive and not
  counted; nothing else makes the count wrong (`StreamRuns.CountedExactly`,
  `StreamRuns.WrittenOffLeaseEscapes`).
- In memory a claim goes through the messages in the order of their random ids, in
  SQLite oldest first within a window (`SqlClaims.OldestFirst`,
  `SqlClaims.ClaimsAgree`).
- A selected path that does not parse is an error only if the page has a document
  (`Projections.SelectionExact`).
- The Pub/Sub timestamp clamps negative seconds to the epoch, the other two do not
  (`Calendar.BeforeEpoch`).

## Model

| member | source | states |
|---|---|---|
| BrokerSteps.StepKeepsInvariant | src/pubsub.rs:62-71 | Every operation, failures and garbage collection included, keeps the broker invariant: one key set for messages and the three side tables, equal to the ids with a delivery; every delivery's subscription exists; in flight iff it has an ack id iff it has a deadline; ack ids distinct; every subscription's topic exists or is the deleted marker; at most 10,000 deliveries and 64 MiB pending |
| BrokerRuns.ReachableConsistent | src/pubsub.rs:62-71 | That invariant holds in every state reachable from the empty broker |
| BrokerSteps.EnqueuedConsistent | src/pubsub.rs:743-783 | Publishing a batch keeps the invariant, with the capacity check exactly the one on the counts and bytes before |
| BrokerSteps.EnqueuedOneUsage | src/pubsub.rs:761-782 | One message adds one delivery, and its size, for each subscriber and nothing else |
| BrokerSteps.TakenAvailable | src/pubsub.rs:892-912 | What a claim takes is distinct, available and of the claiming subscription |
| BrokerRuns.RemovalExact | src/pubsub.rs:949-963 | In one step a pending pair ends exactly when an ack carries its recorded id, its subscription is dropped, or its retention is over; otherwise it and its message stay as they are |
| BrokerRuns.AppearsOnlyFresh | src/pubsub.rs:761-782 | A pair becomes pending only in the publish of its own, never used, message id |
| BrokerRuns.AddsOnlyBatch | src/pubsub.rs:769-782 | A batch adds deliveries of its own messages to the topic's subscribers only |
| BrokerRuns.GoneForever | src/pubsub.rs:1163-1186 | A pair that is gone never comes back |
| BrokerRuns.Conservation | src/pubsub.rs:735-787 | Over every run a pending pair is either still pending with the same message, topic, size and retention, or ended in exactly one step in exactly one of the three ways |
| BrokerClaims.ClaimFlow | src/pubsub.rs:883-930 | Count and byte limits, one message beyond them only when no candidate fits, key order, maximality, and never an empty claim while something is available or lapsed |
| BrokerClaims.ClaimErrorsUnreachable | src/pubsub.rs:899-916 | The orphan and oversize errors of a claim cannot occur |
| SqlClaims.WindowExact | src/pubsub.rs:838-842 | The window of a SQL claim holds the oldest available messages, by publish time and id, as many as it has room for, and whatever it leaves out is younger |
| SqlClaims.SqlClaimFlow | src/pubsub.rs:830-867 | The SQL claim obeys the same count and byte limits and maximality within its window, takes oldest first, and is never empty while something is available or lapsed |
| SqlClaims.SqlClaimKeepsInvariant | src/pubsub.rs:830-867 | It keeps the broker invariant |
| SqlClaims.OldestFirst | src/pubsub.rs:838-862 | When the oldest messages there is room for fit the byte limit together, exactly those are handed out |
| SqlClaims.ClaimsAgree | src/pubsub.rs:830-931 | Both backends make the same claim when message ids are in the order of publish times and the window holds all available messages |
| BrokerClaims.NackSupersedes | src/pubsub.rs:999-1005 | A nack takes the lease from the id it names |
| BrokerClaims.ExpirySupersedes | src/pubsub.rs:874-882 | The sweep of a claim takes the lease from every lapsed id |
| BrokerClaims.SupersededPowerless | src/pubsub.rs:953-962 | An ack or deadline change with a superseded id changes no delivery |
| BrokerClaims.SupersededForever | src/pubsub.rs:916-922 | A superseded id stays powerless for the rest of every run |
| BrokerClaims.SubscriptionsIsolated | src/pubsub.rs:874-930 | Acks, nacks, deadline changes and claims on one subscription leave the deliveries of the others as they are |
| BrokerClaims.DeadlineChangeExact | src/pubsub.rs:995-1011 | A deadline change acts exactly on the recorded ids, also on a lease that has lapsed but was not yet swept, which it revives |
| Broker.MarkerIsNoTopic | src/pubsub.rs:450 | The deleted-topic marker is not a name any topic can have |
| BrokerService.PubSub.CreateTopic | src/pubsub.rs:297-329 | Errors in the source's order; otherwise the new state is the old one with the topic |
| BrokerService.PubSub.DeleteTopic | src/pubsub.rs:399-453 | Removes the topic and points its subscriptions at the marker |
| BrokerService.PubSub.CreateSubscription | src/pubsub.rs:455-512 | Errors in the source's order; otherwise the normalised subscription is added |
| BrokerService.PubSub.DeleteSubscription | src/pubsub.rs:605-633 | Removes the subscription, its deliveries, and messages without deliveries |
| BrokerService.PubSub.MemoryGc | src/pubsub.rs:1179-1186 | Keeps exactly the messages that have a delivery |
| BrokerService.PubSub.CleanupMemory | src/pubsub.rs:1163-1177 | The removal loop drops exactly the messages whose retention is over, with their deliveries |
| BrokerService.PubSub.MemoryUsage | src/pubsub.rs:1153-1161 | Number of deliveries and their bytes |
| BrokerService.PubSub.CheckPublish | src/pubsub.rs:640-684 | Refuses with the code of the first check that fails: an empty batch, the messages in order, the request size, the stamped sizes; accepts exactly when all pass |
| BrokerService.DraftRefusalFirst | src/pubsub.rs:644-664 | The code of a refused message is that of the first message that fails a check, and none is refused exactly when every message passes |
| BrokerService.PubSub.PublishValues | src/pubsub.rs:635-787 | A bad topic name, then the first failing check, decides the error of a refused publish and leaves the broker as it is; otherwise the new state and result, unknown topic and full backlog included, are those of the specification of publishing |
| BrokerService.ChooseCandidates | src/pubsub.rs:892-930 | The choice loop computes the specified choice and leases exactly it |
| BrokerService.PubSub.SweepLapsed | src/pubsub.rs:874-882 | Makes exactly the lapsed leases of the subscription available again |
| BrokerService.PubSub.ClaimValues | src/pubsub.rs:816-932 | A claim on a valid broker never fails internally and its state and result are the specified ones |
| BrokerService.PubSub.AcknowledgeIds | src/pubsub.rs:934-965 | Drops the deliveries of the subscription that hold one of the ids |
| BrokerService.PubSub.ModifyAckIds | src/pubsub.rs:967-1014 | Nacks or re-times the deliveries that hold one of the ids |
| BrokerService.PubSub.ActiveAckIds | src/pubsub.rs:1016-1063 | A requested id is reported exactly when some delivery of the subscription is leased under it with its deadline still to come; an unknown subscription is an error |
| Streaming.ClaimContract | src/pubsub.rs:1490-1520 | What a stream relies on about one claim: new ids, count, bytes or one message, and idle only when nothing is offered |
| Streaming.FewerWithinBudget | src/pubsub.rs:1475-1488 | Leases that end keep a stream within its budget |
| Streaming.ClaimWithinBudget | src/pubsub.rs:1489-1530 | A claim of what the budget has left keeps it |
| Streaming.Stream.constructor | src/pubsub.rs:1401-1410 | The limits of a stream, defaults and caps |
| Streaming.Stream.Settle | src/pubsub.rs:1424-1474 | The exact new broker, count and error of one request: its acks, then its deadline changes one by one up to the first error, after the two request errors |
| Streaming.SettledExact | src/pubsub.rs:1446-1474 | Of the deliveries there were, exactly those under an acked id are gone and those under a nacked id are available again; other named leases are at most re-timed, all else is as it was, and the stream counts neither kind any more |
| Streaming.Stream.Reconcile | src/pubsub.rs:1480-1488 | Counts exactly the held leases the broker still honours, or fails if the subscription is gone |
| Streaming.Stream.Turn | src/pubsub.rs:1417-1536 | The broker after a turn is the settled one with at most one claim: none after an error or at or over a limit, else exactly one claim of the room left, whose batch is handed out and counted; idle below the limits only when nothing is offered, with or without a request; the budget holds throughout |
| Streaming.Stream.Release | src/pubsub.rs:1539-1541 | The exact new broker of a closing stream: a nack of all it counts |
| Streaming.ReleasedExact | src/pubsub.rs:1138-1142 | It makes exactly the deliveries under those ids available and leaves every other one as it is |
| StreamRuns.StepKeepsFits | src/pubsub.rs:1475-1479 | No step of any other client takes a stream out of its budget or the broker out of its invariant |
| StreamRuns.RunKeepsFitting | src/pubsub.rs:1417-1536 | Over every interleaving of the parts of the turns with steps of others the stream stays within its budget |
| StreamRuns.CountedExactly | src/pubsub.rs:1475-1488 | A move leaves every live lease of the stream counted exactly when it does not extend a lapsed lease the stream has stopped counting |
| StreamRuns.LiveWithinBudget | src/pubsub.rs:1475-1489 | From the opening on, over every interleaving without such an extension, the live leases a stream has handed out are all counted and within max_messages and the byte target |
| StreamRuns.WrittenOffLeaseEscapes | src/pubsub.rs:1446-1488 | The condition is needed: any counted lease, once lapsed and written off, is alive and not counted after any extension, the stream's own or another client's |
| StreamRuns.TurnIsMoves | src/pubsub.rs:1417-1536 | What a turn does to the broker and the count is a run of these moves |
| StreamRuns.ReleaseIsMove | src/pubsub.rs:1539-1541 | So is the end of a stream |
| Paging.Paginate | src/pubsub.rs:237-286 | The page after a token, size defaults and caps, and the negative size error |
| Paging.CrawlExact | src/pubsub.rs:261-286 | Following tokens while names come and go returns names in strictly ascending order, and every name present at each request once |
| Paging.CrawlUnchanged | src/pubsub.rs:261-286 | With nothing changing it returns the sorted list of all names |
| Paging.CrawlFinishes | src/pubsub.rs:261-286 | And it ends after finitely many pages |
| Values.IntegerDoubleExact | src/firestore.rs:1900-1910 | The mixed comparison is the exact order of the integer and the real value of the double |
| ValueOrder.NumbersExact | src/firestore.rs:1911-1934 | All numbers compare as points of one line, NaN lowest |
| ValueOrder.TotalPreorder | src/firestore.rs:1911-1963 | The value order is reflexive, total and transitive on all values |
| ValueOrder.EqualityIsTie | src/firestore.rs:262-304 | Transform equality is a tie in the order together with unset parts standing in the same places, for all values |
| ValueOrder.EqualityAgrees | src/firestore.rs:262-304 | On values with nothing unset the two equalities agree |
| ValueOrder.UnsetTiesWithNull | src/firestore.rs:1886-1889 | Without that condition they differ |
| ValueOrder.UnionComplete | src/firestore.rs:334-346 | Array union keeps the array, adds every candidate, adds nothing equal to what is there |
| ValueOrder.UnionIdempotent | src/firestore.rs:334-346 | Repeating a union changes nothing |
| FieldPaths.ParseFieldPath | src/firestore.rs:1787-1814 | The character loop over the flags computes the parse |
| FieldPaths.QuotedRoundTrip | src/ui.rs:234-236 | Parsing a printed name gives exactly that name, and only the empty name is refused |
| FieldPaths.PathRoundTrip | src/firestore.rs:1787-1814 | Every list of non-empty segments has a path that parses to it |
| FieldPaths.AcceptedSegments | src/firestore.rs:1787-1814 | Every accepted path is a non-empty list of non-empty segments |
| Documents.SetsCommute | src/firestore.rs:1825-1847 | Writes to paths of which neither is a prefix of the other commute exactly |
| Documents.MergeReads | src/firestore.rs:1848-1877 | After a merge every masked path reads as in the incoming document and every disjoint path as before |
| Documents.MergeOrderIrrelevant | src/firestore.rs:1848-1877 | The order of a mask does not matter |
| Documents.MergeInPlace | src/firestore.rs:1848-1877 | The merge loops compute the specified merge and refuse overlapping masks |
| Resources.MatchStaysInDatabase | src/firestore.rs:1049-1063 | A document a query accepts lies in the database of the query's parent |
| Resources.RangeScanExact | src/firestore.rs:486-493 | Seeking to a prefix and reading while keys start with it yields exactly the keys with the prefix, in order |
| Resources.PrefixIsDatabase | src/firestore.rs:9-34 | For document names, the database prefix and the database column select the same names |
| Resources.DatabaseScansAgree | src/firestore.rs:464-494 | The in-memory range scan and the SQL index on the database column read the same documents in the same order |
| Writes.RunTransforms | src/firestore.rs:306-368 | The transform loop computes the specified fields and results, or the first error |
| Writes.TransformsRead | src/firestore.rs:306-368 | Each transformed path holds the reported result and disjoint paths are untouched |
| Writes.RunBatch | src/firestore.rs:535-551 | The batch loop is the fold of single writes, stopping or recording errors |
| Writes.FoldShape | src/firestore.rs:963-981 | One result and one status per write; a failed write has an empty result; partial batches never fail as a whole |
| Writes.FoldLocal | src/firestore.rs:516-534 | A batch on the documents it names alone gives the same results, statuses and documents as on the whole store |
| Events.SameExact | src/functions.rs:184-190 | The derived equality of fields is equality of values that hold no NaN |
| Events.CollectRecords | src/functions.rs:201-215 | The two loops over the ordered maps compute the event records |
| Events.RecordsExact | src/functions.rs:184-215 | Exactly the changed names are reported, with what they were and what they are |
| Events.RecordsRestricted | src/functions.rs:248-263 | Comparing whole stores and comparing only the written names report the same events exactly when no unwritten document holds a NaN |
| Backends.ValidateWritesDatabase | src/firestore.rs:128-140 | Accepts exactly the batches whose names are valid and in the database |
| Backends.MemoryBackend.Commit | src/firestore.rs:904-941 | All of the batch or none of it, with the events of the whole-store comparison |
| Backends.MemoryBackend.BatchWrite | src/firestore.rs:951-988 | Each write on its own, with its own status |
| Backends.WriteBackWhole | src/firestore.rs:552-562 | Writing the named rows back gives the whole new store |
| Backends.DurableBackend.PersistentWrites | src/firestore.rs:496-573 | The transaction over the named rows does what the fold over the whole store says; it changes nothing on an error or when the events do not fit the outbox |
| Backends.BackendsAgree | src/firestore.rs:496-573 | Both backends give the same documents, results and statuses, and the same events exactly when no unnamed document holds a NaN; a batch whose events do not fit the outbox is refused, exactly then and on the SQLite path only |
| Backends.UntouchedNaNReported | src/firestore.rs:927-932 | The difference is real: an empty in-memory commit reports a change of a stored document that holds a NaN |
| Query.ComparisonLaws | src/firestore.rs:1996-2012 | Order comparisons need values of one kind and are then one of less, equal and greater; swapping mirrors them and not-equal negates equal |
| QueryLaws.InIsDisjunction | src/firestore.rs:2014-2016 | IN accepts what the disjunction of the equalities accepts, also for a missing field |
| QueryLaws.ContainsAnyIsDisjunction | src/firestore.rs:2017-2021 | ARRAY_CONTAINS_ANY is the disjunction of the single containments |
| QueryLaws.NotInIsConjunction | src/firestore.rs:2022-2027 | NOT_IN is the conjunction of the inequalities with a field that is not null, and accepts nothing once a null is listed |
| Query.ConjunctiveHasFields | src/firestore.rs:2050-2074 | A document accepted by a filter without disjunction has every inequality field |
| Query.DisjunctionDropsDocument | src/firestore.rs:2126-2149 | With a disjunction an accepted document can lack an implicit order field and cannot be put in order |
| QueryLaws.SortableExact | src/firestore.rs:2126-2149 | A document can be put in order exactly when it has every field the query orders by and every field its filter compares by inequality |
| QueryLaws.AnswerExact | src/firestore.rs:2091-2209 | An answer is a page, projected if fields are selected, of one strictly sorted list: exactly the accepted documents between the cursors that have those fields |
| Projections.ProjectionExact | src/firestore.rs:2198-2209 | A projected document reads as the stored one at every selected path, overlapping selections included, and has nothing at a path apart from all of them |
| Projections.SelectionExact | src/firestore.rs:2198-2209 | A page is projected document by document, and a selected path that does not parse is an error exactly when the page is not empty |
| QueryLaws.GuaranteedIsThere | src/firestore.rs:1967-2049 | A field that every accepting branch asks for is there in every accepted document |
| QueryLaws.GuaranteedFilterDropsNothing | src/firestore.rs:2050-2149 | When every inequality field is guaranteed so, no accepted document is dropped for lack of one |
| Query.AddFieldsExact | src/firestore.rs:2132-2138 | Implicit orders follow the explicit ones and add exactly the missing fields, the document name aside |
| QueryLaws.OrdersExact | src/firestore.rs:2116-2146 | A query sorts by exactly the fields it orders by, those it compares by inequality, and the document name |
| Query.QueryDocs | src/firestore.rs:2079-2209 | The scan, order and projection loops compute the specified answer or error, which AnswerExact and AnswerUnique characterise |
| QueryPaging.SortSorted | src/firestore.rs:2150-2165 | Sorting by the effective orders is strict, since the document name breaks ties |
| QueryPaging.SortedUnique | src/firestore.rs:2150-2165 | A strictly sorted answer is determined by its documents |
| QueryPaging.AnswerUnique | src/firestore.rs:2079-2209 | The answer, errors included, does not depend on the order in which documents are stored |
| QueryPaging.ScanOneDatabase | src/firestore.rs:2091-2117 | Reading only the parent's database gives the same answer as reading every document |
| QueryBackends.QueriesAgree | src/firestore.rs:2091-2117 | A query over all documents in memory and one over the rows with the parent's database in their column have the same answer or error |
| QueryBackends.ListingsAgree | src/firestore.rs:464-494 | The range of the in-memory store and the indexed rows of a database are the same documents in the same order |
| QueryPaging.CursorContinues | src/firestore.rs:2166-2192 | A start-after cursor with every order value of a document yields exactly what follows it |
| QueryPaging.CursorIsOffset | src/firestore.rs:2166-2197 | A query restarted after the last document of a page gives, errors and selection included, the answer of the query with that page skipped |
| Listen.EmitTarget | src/firestore.rs:2238-2289 | The loops send the specified messages and the new documents become the previous ones |
| Listen.EmittedReplays | src/firestore.rs:2238-2289 | The messages turn the documents the listener had into the current ones |
| Listen.ResentExactly | src/firestore.rs:2265-2279 | A document is sent again exactly when it differs or holds a NaN |
| Console.EditMerges | src/ui.rs:368-415 | The mask of an edit changes exactly the named top-level fields |
| Console.EditExact | src/ui.rs:368-441 | Committing an edit does what was asked and nothing else if the document is unchanged since it was read, and nothing otherwise |
| Console.RequestName | src/ui.rs:337-350 | The checks of a console request make its path a valid document name |
| Console.DestinationPath | src/ui.rs:530-567 | A checked destination collection and id make a valid document path |
| Console.CloneExact | src/ui.rs:565-601 | A clone copies every document if all targets are free and otherwise changes nothing |
| Console.CopiesExact | src/ui.rs:583-600 | Each target holds its source's fields and every other document is as it was |
| Outbox.EventOutbox.InsertOutbox | src/persistence.rs:198-224 | All records or none, within 4,096 outstanding, with consecutive new ids |
| OutboxRuns.StepKeeps | src/functions.rs:735-874 | Every statement, crash and failed transition keeps rows, lives, backlog bound and counter in agreement |
| OutboxRuns.ReachableSafe | src/functions.rs:735-874 | After any run: at most 4,096 outstanding; no id lost before it is acknowledged or failed for good; each id counted at most once and failed at most five times; dispatches at most five more than lost outcomes |
| OutboxRuns.RunFinal | src/functions.rs:806-866 | Delivered and failed are never left, and a pruned id never returns |
| OutboxRuns.TouchesOnlyHeld | src/functions.rs:791-874 | The consumer's transitions start from an in-flight row, except repeating a half-applied terminal failure, and touch no other outstanding row |
| OutboxRuns.HalfAppliedFailure | src/functions.rs:842-874 | A run that reaches that exception: the fifth attempt fails, only the first of its two statements is applied, and repeating the failure completes it |
| OutboxRuns.OfferTimes | src/functions.rs:749-789 | A claimed row is offered again exactly from the end of its lease, a failed one exactly from the end of its delay, and after the fifth attempt never |
| OutboxRuns.BackoffDoubles | src/functions.rs:862 | Delays double from one second and stop at sixteen |
| OutboxRuns.CrashesUnbounded | src/functions.rs:749-789 | Five attempts do not bound dispatches: for every number there is a run with crashes that dispatches one event that often with no failure |
| OutboxRuns.RoundLowersWork | src/functions.rs:749-874 | Claiming and resolving one event lowers the attempts left |
| OutboxRuns.DrainTerminates | src/functions.rs:899-950 | Without new events, crashes or storage errors there are at most five rounds for each outstanding event |
| OutboxRuns.ExhaustedIsEmpty | src/functions.rs:749-874 | And a sequence of rounds no later round can extend has left nothing outstanding |
| OutboxRuns.AnyOutcomesDrain | src/functions.rs:749-874 | Whatever the outcomes of the dispatches, rounds at later and later times empty the queue |
| OutboxRuns.NothingStuck | src/functions.rs:749-770 | Every outstanding event becomes claimable at a known time |
| Scheduler.Loop.RunOnce | src/functions.rs:909-1007 | One pass of the consumer loop is the specified pass |
| Scheduler.DirectWaitsBounded | src/functions.rs:909-1007 | A direct event with k messages ahead is taken after at most (k + 1) bursts of durable deliveries |
| Scheduler.PassesBounded | src/functions.rs:909-1007 | While a direct event with k messages ahead waits, the loop makes at most those durable deliveries and k other passes |
| Scheduler.DirectTaken | src/functions.rs:909-1007 | A run with one more pass takes it, dispatched or refused |
| Scheduler.DirectsFifo | src/functions.rs:968-990 | Direct events leave in the order they came, none lost or repeated |
| Scheduler.RefusedExactly | src/functions.rs:991-1006 | While the queue never idles exactly the direct events after the first thousand are refused |
| Channel.RepeatedPost | src/firestore_web.rs:288-300 | Posting a batch again at any later time changes nothing |
| Channel.ListenSession.HandlePost | src/firestore_web.rs:286-300 | The loop over a posted batch processes each new request once |
| Channel.ListenSession.ProcessRequest | src/firestore_web.rs:358-375 | Adding and removing targets, with the errors that become messages |
| Channel.ListenSession.RefreshTargets | src/firestore_web.rs:392-441 | The refresh loop stops at the first failing target and keeps what came before it |
| Channel.CollectChanges | src/firestore_web.rs:411-422 | The new and changed documents of a target |
| Channel.CollectRemovals | src/firestore_web.rs:423-429 | The names a target no longer has |
| ChannelReplay.DifferenceReplay | src/firestore_web.rs:403-435 | The messages of a refresh turn what the client had of a target into what it now is |
| ChannelReplay.ClientFollows | src/firestore_web.rs:193-208 | Whatever is lost, late or repeated and whatever each target reads: the queue is a contiguous run ending at the last number, the client has applied exactly the first messages once and in order, and once caught up it holds what the server holds of every live target |
| ChannelReplay.RemovalExact | src/firestore_web.rs:371-374 | Removing a target keeps client and server in step exactly when truncating its id changes nothing or names no live target |
| ChannelReplay.WideIdDiverges | src/firestore_web.rs:358-375 | The condition can fail: adding target 1 and removing the id 2^32 + 1 leaves the client with a target the server no longer has |
| ChannelReplay.RefreshCurrent | src/firestore_web.rs:392-441 | After a successful refresh every visited target is what its query now yields |
| ChannelReplay.RefreshSucceeds | src/firestore_web.rs:392-411 | A poll's refresh succeeds exactly when no target fails |
| ChannelReplay.TimeOutAnswers | src/firestore_web.rs:327-333 | After the timeout's noop the queue is non-empty exactly when the acknowledged number was one the server gave |
| Blobs.RecoverBlobs | src/storage.rs:175-223 | Recovery accepts exactly when nothing referenced is missing, and removes exactly the rest |
| BlobRuns.StepKeeps | src/storage.rs:598-885 | Every step of save, delete, read and recovery, with failures, cancellation and crashes anywhere, cleanups that outlive their caller included, keeps the blob invariant |
| BlobRuns.ReachableSafe | src/storage.rs:756-818 | In every reachable state each row names an existing blob of its size and checksum, and a guarded read finds exactly the bytes of the row it chose |
| BlobRuns.RecoveryAccepts | src/storage.rs:175-223 | After a crash anywhere recovery is accepted, keeps every row and leaves exactly the referenced blobs |
| BlobRuns.GenerationsGrow | src/storage.rs:651-706 | Over a run in which an object stays, its creation time survives and its generation grows with every version |
| Listing.ListResponse | src/storage.rs:1061-1115 | The page is the cut of the sorted entries, with the next offset |
| Listing.ShownOnce | src/storage.rs:1068-1079 | Each matching object is shown by exactly one entry: itself or one prefix |
| Listing.EntriesExact | src/storage.rs:1068-1100 | Entries are strictly ascending, are items or prefixes but not both, and each is there because of some object |
| Listing.CrawlVisitsAll | src/storage.rs:1080-1115 | Following the tokens visits every entry once, whatever the limits |
| Listing.EachShownOnce | src/storage.rs:1061-1115 | Following the pages of a listing to the end, with any sizes, shows every matching object exactly once, as itself or under one prefix |
| Calendar.CivilExact | src/storage.rs:1284-1302 | The conversion gives a valid date for every day count, and counting the days to that date gives the count back |
| Calendar.CivilInverts | src/storage.rs:1284-1302 | Every valid date is the conversion of its own day count |
| Calendar.YearsStep | src/storage.rs:1284-1302 | The day count the conversion is measured against steps by the length of each year from the first of January 1970 |
| Calendar.StampExact | src/storage.rs:1284-1302 | A timestamp has valid fields and stands for exactly the seconds it was made from |
| Calendar.StampMonotone | src/functions.rs:660-681 | Later times have later timestamps |
| Calendar.CopiesAgree | src/pubsub.rs:103-125 | The three copies of the conversion give the same fields: storage and functions for all seconds, Pub/Sub for non-negative ones with the milliseconds added |
| Calendar.BeforeEpoch | src/pubsub.rs:103-125 | Before the epoch they differ: Pub/Sub gives the first second of 1970, whatever the nanoseconds |

## Left out

- The SQL statements of the Pub/Sub operations other than the claim; whole runs of the broker use the in-memory claim.
- gRPC, HTTP and WebChannel framing, CORS, loopback checks, protobuf and JSON encoding, base64, CRC32C: opaque or not modelled.
- The SQLite engine, its writer thread and reader limit: only atomic transactions over tables.
- Functions workers, the adapter and HTTP dispatch: a dispatch succeeds or fails.
- Waiting and waking (notifications, poll delays, timeouts): a step may happen at any time.
- `src/auth.rs`, `src/functions_config.rs`, `src/main.rs`, scripts and browser code.
- Firestore transactions, auto-generated ids, and the single-document RPCs, which repeat what a one-write batch does.
- The Write stream of the web channel, session expiry and form decoding.
- The 1,500-byte limit on console names and the checks on typed console values.
- The text form of timestamps: dates and times are modelled as fields, not as digits.
- Streaming.Stream.Turn: reads one clock value for all parts of a turn; in StreamRuns each part has its own.
- Backends.MemoryBackend.Commit: the bounded channel to the functions runtime is not modelled, so every event is handed over.
- Scheduler.Loop.Enqueue: counting an event and queueing it are one step, and the bound of the channel is not modelled.
- OutboxRuns.ReachableSafe: last_error and delivery times are not part of a row.
- BlobRuns.ReachableSafe: a committed file is assumed to survive a crash of the process; on Windows the source does not flush directory metadata.
- ChannelReplay.ClientFollows: runs in which a client removes a target by an id whose truncation names another live target are excluded, since there the property fails (RemovalExact).
