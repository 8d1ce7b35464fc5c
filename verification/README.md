# Verified model of the document-generation worker

A Dafny 4.11 model of the worker's behaviour, with proofs. Each module follows one part of the program; the
collaborators whose code is foreign (JSON decoding, schema validation, HTML/DOCX rendering, openpyxl cell
parsing, SHA-256, `str()` of a value) are arbitrary pure functions passed in as fields of a datatype, so every
theorem holds for all of them. Check everything with `dafny verify dfyconfig.toml`.

## What is modelled

**Delivery (`Pipeline`, `Handler`, `Delivery`, `Storage`, `Attribution`, `Guarantees`, `Decisions`, `Bounds`, `Clashes`,
`Misreads`, `Scripts`, `Losses`, `Stranded`, `Recovery`, `Dispatcher`).**
The broker, any number of overlapping handler runs, the output bucket, the results stream and the dead-letter
stream form a transition system. A run has a program counter at every `await`; at each one the call may return,
raise (its write having landed or not), or be cancelled for good, which also stands for a crash. A message that
is not acknowledged may be delivered at any moment, so expired ack waits and duplicate runs are included. A raised
fault is transient, unclassified, or a misread: a local template file that is there and cannot be found or read, which
the code answers as a missing template.
`Pipeline.Decide` is the fault-free pipeline the faulty runs are compared with, and `Decisions` says case by case what
it answers. The class `Dispatcher.Session` is `_handle_message` as structured code (loops, early returns, two exception
handlers) and is proved to be a run of the transition system.

**Shutdown (`Shutdown`).** The tracked task set, the subscription drain with the messages that still arrive while it
unsubscribes, the snapshot and the cancellation. A tracked task is a run of the delivery machine, and cancelling it is
a step of that machine.

**Timestamps and packages (`Timestamps`, `TimestampLaws`, `CoreProperties`, `Ooxml`).** The two regular-expression
substitutions are a left-to-right scanner over bytes, refined to a recursive specification; the repacker is the
imperative loop over a dictionary of members. The matcher takes the first `>` after the opening name and the
first `<` after that; `MatchHeadSpec` shows this is the only way the expression can match, so backtracking
cannot find another.

**Template cache (`CacheTree`, `CacheRuns`, `CacheAnswers`, `CacheStore`, `CacheLayout`, `CacheSolo`).** A directory
tree shared by interleaved fetches, one file-system or store call per transition, with faults, cancellations and crashes; an object
may be gone when it is downloaded, a cached manifest unreadable, and every clean-up may leave any part of a temporary
directory behind. `CacheStore.TemplateStore` is the object with its `fetch`, `_download_prefix` and `_publish` methods,
and answers like an undisturbed fetch of the interleaved machine. Three hypotheses are stated in the model: keys and prefixes have no
empty, `.` or `..` components (paths are sequences of components; `StringPrefixIsPathPrefix` relates them to
strings), the store does not change, and a temporary name is never the first component of a prefix. That no
object key lies above another is a hypothesis only where a theorem names it. `LaidOut` is the exact condition on
store and prefixes under which the cache is transparent.

**Workbooks (`Workbook`, `WorkbookLaws`, `WorkbookBands`, `XlsxRenderer`).** A fill is a list of edits (writes,
row hidings and the point where the code raises); the renderer's nested loops over a mutable grid are proved to
perform exactly that list, and the laws are proved about the list. Overlapping merged ranges are tried in the order
of an arbitrary sequence, which stands for whatever order the library yields.

**Forms (`AcroForm`).** Field values and comb boxes, and their effect on a document.

**Consumer reconciliation (`Consumer`, `Replicas`).** A broker that binds to an existing durable and drops the
given configuration; one starting worker as methods over it, and any number of interleaved ones as a machine.

**Across the parts (`Composition`, `Text`, `Models`).** Filled workbooks and forms, bad lists and bad mappings
followed through to the bucket and the results stream; the cache as the immutable template source the pipeline
assumes; keys and URIs.

## Findings

- A success result is backed by the bucket in every reachable state exactly when requests that share a key agree
  on its size and digest (`HonestExactlyWhenKeysAgree`).
- A terminal result is the fault-free pipeline's only as far as no delivery misreads its template. An `OSError` on a
  cached manifest is answered as a missing template (`adapters/template_store.py:137-140`), and so are an object that
  vanished, a cache directory that is stuck on the prefix, and a template file the renderer does not find
  (`adapters/renderers/_paths.py:27-28`): a permanent failure, though the fault may pass and `domain/errors.py:6-9` calls
  permanent what no retry could cure. The model follows the code. A message can get a terminal result that is not the
  pipeline's if and only if one of its deliveries misread its template (`MisleadExactlyWhenMisread`). One whose pipeline
  stores can get both a success, whose artifacts stay stored, and a permanent failure if and only if one delivery did and
  one did not (`ContradictExactlyWhenMixed`, `SuccessThenMissing`). Successes are always the pipeline's
  (`SuccessIsExpected`).
- An acked message can be lost in one way only: by a delivery at or past the bound whose result publish and
  dead-letter publish both fail, or, undecodable, by one whose dead letter fails. The condition over its deliveries is
  exact (`NoSilentLoss`, `LostExactlyWhenLosing`), and every message can be lost so (`LossIsReachable`).
- A message that is never acked can be lost in a second way, by running out of deliveries. The exact condition is a
  property of its deliveries: all `max + 1` are used up, and every one that drops the message, or that the handler
  takes for the last allowed one, was cancelled or crashed (`StrandedExactlyWhenDoomed`). So cancelling each delivery
  loses any message (`CancellationsStrand`), and with unreadable metadata, where every delivery counts as the first,
  failed naks alone do, without any cancellation (`UnreadableMetadataStrands`).
- A limit of `2 * (max - 1)` naks needs readable metadata. The exact limit for any readability is
  twice the number of deliveries taken for one below the bound, and it is reached (`NakLimitExactly`). The dead-letter
  count does not need it (`MessageBounds`).
- A cancelled delivery is safe up to delivery `max`: its message can still be accounted for. At delivery `max + 1` it
  can be only if it is already (`CancelledDeliveryIsSafe`, `ShutdownIsSafe`, `StopIsSafe`).
- A shutdown leaves no delivery behind, whatever happens during its wait, if and only if its drain completes
  (`NothingLeftExactlyWhenDrained`). Whenever one does not, for any worker, some delivery can become a task that the
  sequence neither awaits nor cancels (`FailedDrainOrphans`).
- `_publish` takes any existing directory for a concurrent winner's copy (`adapters/template_store.py:121-125`).
  That is wrong when a template was cached below the prefix of another one: the outer template is then answered
  as missing, a permanent error, and stays so for every later fetch (`NestedPrefixStarves`, `StarvedForever`).
  The condition under which one fetch answers wrongly is exact (`TemplateStore.Fetch`), and so is the condition on a
  store and its prefixes under which no interleaving ever does (`TransparentExactlyWhenLaidOut`). The model follows the
  code, not its docstring.
- A comb reads back every fitting value exactly when no box is named twice (`RoundTripExactlyWhenDistinct`).
- An empty string clears a block's cell but is written as it is to a defined name's or explicit cell
  (`BlockCellWins`, `NameCellWins`).

## Model

| member | source | states |
|---|---|---|
| Guarantees.SuccessStaysBacked | worker/dispatcher.py:228-234 | In every execution with agreeing keys, from the moment a success result is on the stream it stays there and the bucket holds each listed artifact with exactly the reported size and digest |
| Decisions.SuccessDelivers | domain/orchestrator.py:84-121 | In every execution with agreeing keys, a success names its request, the template's version and each requested format once in first-seen order, and from then on the object at each artifact's key has the size and digest of the bytes the renderer produces for that format |
| Decisions.StoredIsRendered | domain/orchestrator.py:66-107 | Every stored artifact holds the renderer's own bytes for its format, under the template's filename, and passed the format, renderer and data gates |
| Decisions.SuccessMeans | domain/results.py:24-40 | When every gate passes, the answer lists each rendering at its address with its size and digest, without an error, and echoes request and metadata |
| Decisions.MissingTemplateMeans | adapters/template_store.py:92-93 | A missing template is answered by a permanent template error without a version |
| Decisions.UnsupportedFormatMeans | domain/orchestrator.py:62-78 | The first requested format that the template does not list or its engine cannot produce is answered by a permanent format error with the version |
| Decisions.InvalidDataMeans | domain/orchestrator.py:80-81 | Data that does not validate is answered by a permanent validation error with the validator's message and the version |
| Decisions.BrokenValidatorMeans | worker/dispatcher.py:217-225 | An exception of the validator is answered by the transient failure of an unhandled error |
| Decisions.FailedRenderingMeans | adapters/render_executor.py:69-87 | The first rendering that fails decides: with its own code, permanent or not, if it is a classified error, else as a transient render error |
| Clashes.HonestExactlyWhenKeysAgree | domain/orchestrator.py:96-116 | Success results are backed in all reachable states if and only if requests agree on size and digest of every key they share |
| Storage.DisjointKeysAgree | domain/orchestrator.py:35-42 | Requests with disjoint key sets agree on all their keys |
| Guarantees.SuccessIsExpected | worker/dispatcher.py:204-234 | Whatever faults occur, a success is the fault-free pipeline's result up to generation time and presigned URLs, and is on the request's reply subject |
| Guarantees.TerminalResultIsExpected | worker/dispatcher.py:204-234 | Whatever faults occur, a terminal result is the fault-free pipeline's, or it calls the template missing and some delivery of the message misread a template file |
| Guarantees.TerminalResultsAgree | worker/dispatcher.py:275-279 | All successes ever posted for one request agree, and with them all terminal results posted for it by messages that never misread their template, on status, error and artifacts |
| Misreads.MisleadExactlyWhenMisread | adapters/template_store.py:135-140 | For every bound, decodable message and pattern of deliveries: the message can get a terminal result that is not the fault-free pipeline's if and only if one of its at most max+1 deliveries misread a template file |
| Misreads.ContradictExactlyWhenMixed | adapters/template_store.py:135-140 | The message can get both a success and a permanent failure if and only if its pipeline stores and of its at most max+1 deliveries one misread a template file and one did not |
| Misreads.SuccessThenMissing | adapters/template_store.py:135-140 | For every bound of at least one and every message whose pipeline stores there is an execution with exactly two results: a success, whose artifacts are stored, and a permanent failure |
| Attribution.FireAttributed | domain/orchestrator.py:56-131 | Every event keeps each posted result traceable to a delivery of its message: one that did not misread its template for a success, one that did for a terminal result that is not the pipeline's |
| Handler.AdvanceOnTrack | domain/orchestrator.py:56-131 | Every await of a run, whatever its fate, keeps the run's artifacts so far and its result consistent with the fault-free pipeline: a failure is transient, the pipeline's own, or says the template is missing |
| Handler.PipelineSane | domain/orchestrator.py:56-131 | A terminal result emitted inside the pipeline is the fault-free pipeline's unless this very await misread a template file |
| Handler.PutLists | domain/orchestrator.py:98-115 | A put that returns lists its artifact, without an address when none was asked for |
| Handler.PresignLists | adapters/object_store.py:38-45 | Signing lists the artifact with exactly the signed address, or without one when signing fails |
| Handler.AdvanceCounted | worker/dispatcher.py:236-272 | Every step keeps the history of publishes, naks and dead letters consistent with the control state and the delivery bound |
| Handler.AdvanceUsesWork | worker/dispatcher.py:165-193 | Every step of a run uses up some of its remaining work |
| Guarantees.NoSilentLoss | worker/dispatcher.py:228-272 | An acked request has its result on its reply subject or its payload dead-lettered, except after a delivery at the bound whose result publish and dead-letter publish both failed; an acked undecodable message is dead-lettered unless that publish failed |
| Losses.LostExactlyWhenLosing | worker/dispatcher.py:250-272 | For every bound, message and pattern of deliveries that lost all they sent: the message can end acked with neither result nor dead letter if and only if it has at most max+1 deliveries, one of them lost everything, and those that did are at or past the bound or drop an undecodable message |
| Losses.LossIsReachable | worker/dispatcher.py:268-305 | For every bound, any message, decodable or not, can be acked with neither result nor dead letter |
| Stranded.StrandedExactlyWhenDoomed | worker/dispatcher.py:165-193 | For every bound, message and pattern of deliveries: the pattern can end the message unacked, unaccounted for and without a further delivery if and only if it uses up all max+1 deliveries and cancels every one that drops the message or is taken for the last allowed one |
| Stranded.NothingLeftMeansAccountedOrDoomed | worker/dispatcher.py:106-114 | In every reachable state a message with no possible event left, acked or not, is accounted for, or its deliveries show that pattern |
| Stranded.CancellationsStrand | worker/main.py:265-273 | For every bound and every message, cancelling each of its deliveries ends in a state where nothing about it was posted or dead-lettered, it is not acked, and nothing can happen to it any more |
| Stranded.UnreadableMetadataStrands | worker/dispatcher.py:287-292 | For every bound above one, max+1 deliveries with unreadable metadata can each nak twice without any cancellation and lose the message |
| Stranded.NakLimitExactly | worker/dispatcher.py:236-260 | For any readability of its deliveries, a message is nakked at most so often in every execution if and only if that is at least twice the deliveries taken for one below the bound |
| Recovery.CancelledDeliveryIsSafe | worker/main.py:265-273 | A message none of whose runs is going can still be brought to an account by further events about it if and only if it has one already or the server-side bound leaves it a delivery |
| Recovery.Recover | worker/dispatcher.py:228-247 | While the server may deliver once more, some continuation acks the message, whatever became of earlier deliveries |
| Recovery.CalmExecutionsFinish | worker/dispatcher.py:106-114 | Every undisturbed execution extends to an undisturbed one in which every message is acked |
| Clashes.DeliverAndPost | worker/dispatcher.py:165-193 | A delivered message left undisturbed posts the terminal result its pipeline decides on and touches no other message |
| Guarantees.PermanentFailureWritesNothing | domain/orchestrator.py:62-116 | A message that ever gets a permanent failure leaves the bucket unchanged at every step of all its deliveries, before and after, unless the failure calls the template missing and one of the deliveries misread it |
| Pipeline.StoresOnlyAfterEveryGate | domain/orchestrator.py:57-94 | Something is stored exactly when the template exists, every requested format is supported, the data validates and every rendering succeeds |
| Pipeline.PlanListsEachFormatOnce | domain/models.py:125-131 | A stored plan has one artifact per distinct requested format, in first-seen order, under pairwise distinct keys |
| Pipeline.Execute | adapters/render_executor.py:69-87 | The executor never lets an unclassified exception through |
| Models.FormatsHaveDistinctKeys | domain/models.py:263-270 | Different formats of one request never share a key, whatever the prefix and basename |
| Models.RequestedFormats | domain/models.py:125-131 | The loop lists each requested format once in the order of first occurrence |
| Models.FirstSeenSpec | domain/models.py:126-131 | First-seen deduplication keeps every element, once, ordered by first occurrence |
| Models.DefaultBasename | domain/models.py:263-270 | Without an explicit basename the part of the template id behind its last dot names the files |
| Models.CapacitySpec | domain/models.py:246-257 | A block's capacity is its own row count, or else the positive `maxItems` of its source in the schema, and otherwise unknown |
| Models.ValidManifestSpec | domain/models.py:205-244 | A validated manifest names a format, and each block a column, exactly one anchor and a positive capacity |
| Models.FilenameSpec | domain/models.py:263-270 | A basename that is given and not empty names the files, with the format's own suffix |
| Bounds.EveryExecutionEnds | worker/dispatcher.py:106-116 | No execution is longer than max+1 runs of every message, with faults, cancellations and unreadable metadata |
| Bounds.FireLowersPotential | worker/dispatcher.py:165-193 | Every event lowers deliveries left weighted by run length, plus the work of the live runs |
| Bounds.MessageBounds | worker/dispatcher.py:236-272 | Per decodable message at most D+1 runs and result publishes; at most 4 dead letters and none before delivery D; with readable metadata at most 2(D-1) naks and none from delivery D on |
| Bounds.ResultsPerRequest | worker/dispatcher.py:231-234 | At most D+1 results on the stream answer one message |
| Bounds.PrimaryBoundFiresFirst | worker/dispatcher.py:106-114 | Without cancellation, ack expiry, failed ack or unreadable metadata, delivery D+1 never happens and delivery D ends acknowledged |
| Bounds.CalmNeverStuck | worker/dispatcher.py:236-247 | In such executions an unacknowledged message always has a next event, so with termination every one is acknowledged |
| Dispatcher.Session.HandleMessage | worker/dispatcher.py:165-193 | The handler's bucket, streams and ack are those of the machine after as many awaits, and its way of ending is the machine's |
| Dispatcher.Session.ProcessRequest | domain/orchestrator.py:45-131 | The staged pipeline with its loops and its classified-error handler leads the machine to the emission of exactly its result, the permanent failure of a misread template included |
| Dispatcher.Session.StoreAll | domain/orchestrator.py:99-123 | The storing loop emits a success listing every artifact or the transient failure of the put that failed |
| Dispatcher.Session.RenderAll | domain/orchestrator.py:84-94 | The rendering loop collects one rendering per format or ends with the first failure, a template file the renderer misses included |
| Dispatcher.Session.CheckFormats | domain/orchestrator.py:66-78 | The loop finds the first unsupported format, or none |
| Dispatcher.Session.StoreArtifact | adapters/object_store.py:33-52 | One put, then best-effort presigning, reporting size and digest of the exact bytes |
| Dispatcher.Session.BuildResult | worker/dispatcher.py:204-225 | An unclassified exception becomes a transient failure |
| Dispatcher.Session.EmitResult | worker/dispatcher.py:228-247 | Terminal results are published and acked, transient ones nakked below the bound and dead-lettered at it |
| Dispatcher.Session.HandleEmitFailure | worker/dispatcher.py:250-272 | A failed emission is nakked below the bound, otherwise dead-lettered and acked best-effort |
| Dispatcher.Session.DropUndecodable | worker/dispatcher.py:295-305 | An undecodable message is dead-lettered best-effort, then acked |
| Dispatcher.PlayIsExecution | worker/dispatcher.py:134-162 | A session played on its own is an execution of the whole system in which nothing else moves |
| Delivery.FireNoLoss | worker/dispatcher.py:228-272 | Every event keeps the no-loss invariant |
| Storage.FireStored | domain/orchestrator.py:96-116 | Every event keeps all posted successes and all partly stored runs backed by the bucket |
| Storage.FireSourced | worker/dispatcher.py:228-247 | Every event keeps results, dead letters and bucket contents traceable to a request, and each dead letter's reason a decoding error, a failed emission or a transient failure |
| Attribution.FireAnnounced | worker/dispatcher.py:243-247 | Every event keeps each dead letter of a failed result behind a posted result of the same payload with the same error code |
| Shutdown.Worker.Stop | worker/main.py:249-273 | Whether or not the drain completes: the snapshot is what is in flight after it, exactly the tasks of the snapshot that are still in flight after the wait are cancelled, and what is left is what was buffered or spawned after the snapshot; after a drain that completes every delivery ever made has finished or been cancelled |
| Shutdown.Worker.Drain | worker/main.py:254-258 | Messages may arrive until the server confirms the unsubscription; then each buffered message gets to the callback up to where the drain raises, it completes exactly when it leaves the subscription closed and the buffer empty, and nothing delivered is lost |
| Shutdown.Worker.Meanwhile | worker/dispatcher.py:148-162 | Any interleaving of pushes, callbacks and ending tasks keeps every delivery in exactly one place, and a closed subscription gets no more |
| Shutdown.Worker.CancelPending | worker/main.py:272-273 | Cancelled tasks leave the tracked set and are counted once |
| Shutdown.Worker.Handle | worker/dispatcher.py:154-160 | The callback moves one buffered message to the tracked tasks |
| Shutdown.Worker.TasksDone | worker/dispatcher.py:148-150 | Ended tasks leave the tracked set and no delivery is lost or counted twice |
| Shutdown.NothingLeftExactlyWhenDrained | worker/main.py:249-264 | For every drain of every worker: nothing is left behind after the wait, whatever happens in it, if and only if the drain completes |
| Shutdown.FailedDrainOrphans | worker/main.py:255-264 | For any worker and any drain that does not complete there is a wait after which some delivery is in flight, in no snapshot, and not cancelled |
| Shutdown.CancelRuns | worker/main.py:272-273 | Cancelling any set of running deliveries is an execution of the delivery machine that changes nothing else: what was posted, stored or acked stays, and only interrupted writes may be added |
| Shutdown.ShutdownIsSafe | worker/main.py:260-273 | After a shutdown cancelled any set of running deliveries in a reachable state, each of their messages, once no run of it is going, can still be accounted for if and only if it is already or has a delivery left |
| Shutdown.StopIsSafe | worker/main.py:249-273 | The same of exactly the deliveries a worker's shutdown sequence cancels, when its tracked tasks are live runs of the delivery machine |
| Timestamps.Substitute | adapters/renderers/_ooxml.py:45-48 | The leftmost, non-overlapping scan computes the recursive substitution |
| Timestamps.MatchHeadSpec | adapters/renderers/_ooxml.py:22-23 | The scanner's match at a position is the only reading of the expression there |
| Timestamps.AcceptsIsMatch | adapters/renderers/_ooxml.py:22-23 | An automaton for the expression accepts exactly where the scanner matches |
| TimestampLaws.SubIsIdempotent | adapters/renderers/_ooxml.py:45-48 | Each substitution is idempotent on every byte string |
| TimestampLaws.SubsCommute | adapters/renderers/_ooxml.py:46-47 | The created and modified substitutions commute on every byte string |
| TimestampLaws.HeadKept | adapters/renderers/_ooxml.py:22-23 | Where a pattern does not match, rewriting the rest neither creates nor destroys a match |
| CoreProperties.FixTimestampsIsIdempotent | adapters/renderers/_ooxml.py:45-47 | The composition of both substitutions is idempotent |
| CoreProperties.TimestampOrderIsIrrelevant | adapters/renderers/_ooxml.py:46-47 | The order of the substitutions does not matter |
| CoreProperties.ElementsAreFixed | adapters/renderers/_ooxml.py:21-23 | A `dcterms:created` or `dcterms:modified` element keeps its attributes and gets the text of the fixed date, whatever its own text was |
| CoreProperties.PlainTextIsKept | adapters/renderers/_ooxml.py:45-47 | Text without an opening bracket stays as it is |
| CoreProperties.CanonicalFormPrintsPieces | adapters/renderers/_ooxml.py:45-47 | All bytes outside the timestamp text are kept in order |
| CoreProperties.SameFormExactlyWhenSamePieces | adapters/renderers/_ooxml.py:45-47 | Two parts have the same canonical form exactly when they differ only in the text of matched timestamp elements |
| Ooxml.NormalisePackage | adapters/renderers/_ooxml.py:33-51 | The output is the canonical listing of the members: content types first if there are any, every later name before the names behind it by code points, each once, with the fixed date and its canonical bytes |
| Ooxml.LessIsPrecedes | adapters/renderers/_ooxml.py:39 | The comparison behind the sorting is the order by code points: the first difference decides, and a name comes before its extensions |
| Ooxml.RepackedInOrder | adapters/renderers/_ooxml.py:38-41 | Of any two names behind the content types the one written first precedes the other by code points |
| Ooxml.RepackedEntry | adapters/renderers/_ooxml.py:41-50 | Every entry has the first of January 1980 for its date and the member's own bytes, the core properties excepted |
| Ooxml.OrderMembers | adapters/renderers/_ooxml.py:38-39 | The write order is content types first, then all other names sorted |
| Ooxml.SortedListingIsUnique | adapters/renderers/_ooxml.py:39 | A set of names has one sorted listing |
| Ooxml.CanonicalIsUnique | adapters/renderers/_ooxml.py:33-51 | The members determine the repacked package |
| Ooxml.SamePackageExactlyWhenSameMembers | adapters/renderers/_ooxml.py:33-51 | Two packages repack to the same entries exactly when their members agree up to order, dates and timestamp text |
| Ooxml.RepackedReadsBack | adapters/renderers/_ooxml.py:35-50 | Every member occurs once and reads back unchanged, core properties in canonical form |
| Ooxml.RepackingIsIdempotent | adapters/renderers/_ooxml.py:33-51 | Repacking a repacked package changes nothing |
| CacheAnswers.NoPartialDownload | adapters/template_store.py:69-74 | In every reachable state, for every prefix, nested or not, a manifest in its directory means the files below are exactly the store's objects, and every served bundle is the store's |
| CacheAnswers.ServedBundleStays | adapters/template_store.py:117-133 | What lies below a served prefix never changes afterwards |
| CacheLayout.TransparentExactlyWhenLaidOut | adapters/template_store.py:56-133 | Over all interleavings, faults and crashes, every fetch that was not broken and missed no file answers what a direct read answers if and only if no downloaded prefix has nested keys and no prefix above a downloaded one holds a template of its own or an object on the way to it |
| CacheLayout.StarvationIsReached | adapters/template_store.py:121-125 | Publishing any prefix below another one reaches the state in which the outer one is starved |
| CacheAnswers.CacheIsTransparent | adapters/template_store.py:56-74 | With no prefix above another and no key above another, every fetch that was not broken and missed no file answers what a direct read answers |
| CacheAnswers.StarvedForever | adapters/template_store.py:121-125 | Once a directory below a prefix was published first, the manifest never gets into the cache, and no fetch of that prefix is answered with the template in that state or any later one |
| CacheAnswers.FaultsAreMet | adapters/template_store.py:98-143 | A fetch is broken, or misses an object or the manifest's file, only by such a fault of one of its own calls |
| CacheRuns.NextSound | adapters/template_store.py:86-143 | Every call of every interleaved fetch, fault, unreadable or vanished file, cancellation, crash and partial clean-up keeps published prefixes complete and temporary directories private |
| CacheRuns.ManifestMeansComplete | adapters/template_store.py:70-72 | Under the invariant a manifest file implies a complete and exact copy |
| CacheStore.TemplateStore.Fetch | adapters/template_store.py:56-74 | A malformed URI, foreign bucket or empty prefix is not found; otherwise a fetch in which no read goes wrong answers like a direct read if and only if the directory is not stuck on the prefix; faults are answered only where a read went wrong, a failed download leaves no trace and a cached fetch touches nothing |
| CacheStore.TemplateStore.FetchSpelled | adapters/template_store.py:33-46 | However many slashes surround a path in a URI, the fetch answers for that path of the store's bucket, and not found for another bucket |
| CacheStore.NamesNothing | adapters/template_store.py:39-46 | URIs of another scheme, without a bucket, or without a prefix name no template |
| CacheSolo.FetchAloneAnswers | adapters/template_store.py:69-133 | In every reachable state of the interleaved machine, a fetch that runs on its own without a fault answers what the template store object answers, and a cached one from an unchanged cache |
| CacheStore.TemplateStore.DownloadPrefix | adapters/template_store.py:86-115 | Which inputs make the download fail and how, a failed listing, vanished and unreadable objects included, and that a failure sweeps its temporary directory |
| CacheStore.TemplateStore.FillTemp | adapters/template_store.py:98-112 | The loop puts every object into the temporary directory, or stops at nested keys or at an object that is gone or cannot be read |
| CacheStore.TemplateStore.Publish | adapters/template_store.py:117-133 | An existing target is kept, a file in the way is an error, otherwise the download becomes the prefix's directory |
| CacheStore.NestedPrefixStarves | adapters/template_store.py:121-125 | For every pair of nested templates, fetching the inner one first makes the outer one, which is in the store, not found |
| CacheStore.UriNamesPath | adapters/template_store.py:78-84 | The URI of a canonical path parses to that path |
| CacheTree.StringPrefixIsPathPrefix | adapters/template_store.py:98-101 | For canonical keys, listing by string prefix is listing by path prefix |
| CacheTree.TodoSpec | adapters/template_store.py:98-101 | The download list is the listed non-placeholder keys under the prefix |
| XlsxRenderer.XlsxWorkbook.Render | adapters/renderers/xlsx.py:75-88 | The in-place renderer performs exactly the planned edits up to the first failure: names, blocks, explicit cells |
| XlsxRenderer.XlsxWorkbook.ApplyDefinedNames | adapters/renderers/xlsx.py:90-102 | The loops over names and destinations perform the planned writes, skipping block sources and ranges |
| XlsxRenderer.XlsxWorkbook.ApplyBlock | adapters/renderers/xlsx.py:108-132 | One block: list check, capacity check, anchor, row-major writes, hiding of the rest |
| XlsxRenderer.XlsxWorkbook.SetCell | adapters/renderers/xlsx.py:154-168 | A covered cell writes to the top-left cell of the first covering range, and is skipped when there is none |
| XlsxRenderer.XlsxWorkbook.ApplyCells | adapters/renderers/xlsx.py:181-188 | Explicit cells are written in order, naming their sheet before the first `!` or meaning the active one |
| WorkbookLaws.Precedence | adapters/renderers/xlsx.py:75-88 | Cell by cell the result is explicit cells over blocks over defined names over the template |
| WorkbookLaws.ExplicitCellWins | adapters/renderers/xlsx.py:181-188 | An explicit cell holds its value unless a later item names the same cell |
| WorkbookLaws.NameCellWins | adapters/renderers/xlsx.py:90-102 | A defined name's cell holds the supplied value as it is unless a later name, a block or an explicit reference reaches it |
| WorkbookLaws.BlockCellWins | adapters/renderers/xlsx.py:122-129 | A block value is found where it lands, merged cells included: the last writer in block and row-major order wins below explicit cells, with an empty string stored as no value |
| WorkbookLaws.BlockIsATable | adapters/renderers/xlsx.py:122-129 | In a block without merged cells the value of row r and column c stands r rows below and c columns right of the anchor, unless a later block or an explicit reference reaches that cell |
| WorkbookLaws.AnchorSpec | adapters/renderers/xlsx.py:136-147 | A block without an anchor name anchors on its cell reference; an anchor name nobody defines is a validation error |
| WorkbookLaws.AnchorByName | adapters/renderers/xlsx.py:136-152 | A block with an anchor name anchors on the first destination of the defined name |
| WorkbookLaws.BadAnchorMeans | adapters/renderers/xlsx.py:149-152 | An anchor on an unknown sheet or an unreadable coordinate is a failed rendering |
| WorkbookLaws.BareReferenceMeansActive | adapters/renderers/xlsx.py:149-150 | A reference without a sheet means the active one |
| WorkbookLaws.SourceSpec | adapters/renderers/xlsx.py:109-114 | The rows of a block are the supplied list, or none for anything empty; what is neither is refused |
| Workbook.NoDollarsSpec | adapters/renderers/xlsx.py:97-98 | Exactly the dollar signs of a reference are dropped |
| WorkbookLaws.UnreachedCellsUnchanged | adapters/renderers/xlsx.py:90-132 | Every cell no name, block or explicit reference reaches keeps the template's value |
| WorkbookLaws.LandingSpec | adapters/renderers/xlsx.py:161-168 | A plain cell keeps its value; a covered one hands it to the top-left cell of the first covering range and drops it only when there is none |
| WorkbookLaws.CoveredCellsNeverChange | adapters/renderers/xlsx.py:154-168 | No successful fill changes a covered cell |
| WorkbookLaws.AnchorNamesItsSheet | adapters/renderers/xlsx.py:147-152 | An anchor splits at its last `!`, so every sheet name can be anchored on |
| WorkbookLaws.RefNamesItsSheet | adapters/renderers/xlsx.py:183-188 | An explicit reference splits at its first `!`, so it reaches every sheet without one in its name |
| WorkbookBands.HiddenRowsAreUnusedTails | adapters/renderers/xlsx.py:130-132 | The hidden rows are those the template hid and the unused tails of the blocks that hide, and no others |
| WorkbookBands.DataRowsStayVisible | adapters/renderers/xlsx.py:122-132 | With row-disjoint bands, used and unused rows split each band and no row that received data becomes hidden |
| WorkbookBands.BlockWritesItsTable | adapters/renderers/xlsx.py:122-129 | Every value a block writes is that of one of its rows and columns, and one written to the cell it belongs to lies in a used row of the band |
| WorkbookBands.DataIsVisible | adapters/renderers/xlsx.py:122-132 | With row-disjoint bands, the row of every supplied value is a used one and hidden only if the template hid it |
| WorkbookBands.BadRowsYieldNothing | adapters/renderers/xlsx.py:109-120 | An over-long list or a source that is no list yields no workbook |
| WorkbookBands.BadRowsArePermanent | adapters/renderers/xlsx.py:115-120 | The first such block of a validated manifest, when nothing before it fails, makes the failure a permanent validation error |
| AcroForm.ResolveValues | adapters/renderers/pdf_form.py:118-174 | The fill succeeds if and only if every mapped target of every key, supplied or not, is declared; with disjoint targets each supplied entry then shows its value: text as it is, nothing for a null, Oui or Non, a button's on or off state, one character per comb box |
| AcroForm.CompleteSpec | adapters/renderers/pdf_form.py:130-138 | A mapping is accepted exactly when the form declares its every field and box |
| AcroForm.DomainIsSuppliedTargets | adapters/renderers/pdf_form.py:130-149 | The result's domain is exactly the targets of the supplied keys |
| AcroForm.EntryKept | adapters/renderers/pdf_form.py:139-148 | With disjoint targets each supplied entry keeps its own values |
| AcroForm.CombRoundTrip | adapters/renderers/pdf_form.py:143-148 | Reading comb boxes back gives the text of the value supplied, truncated to the box count |
| AcroForm.RoundTripExactlyWhenDistinct | adapters/renderers/pdf_form.py:147-148 | A comb reads back every fitting value if and only if its boxes are distinct |
| AcroForm.FormDocument.Render | adapters/renderers/pdf_form.py:93-111 | Fields that are mapped, supplied and shown get their values, with disjoint targets exactly what each value shows, and all others keep theirs; a form without fields or with an undeclared target is a missing template and stays as it was |
| AcroForm.DocumentKept | adapters/renderers/pdf_form.py:106-109 | A field that no supplied entry names, or that no page shows, keeps its value |
| Consumer.SubscribeDurable | core/queue/helper.py:21-88 | A start succeeds if and only if the stream is found, only the four reconciled fields are declared, the stored configuration can be read, the group fits and every call it needs is done; on success every declared field has the code's value, all undeclared and fixed fields of an existing durable and all other durables are preserved, and a new durable carries its name, group and subject; on an error there is no subscription |
| Consumer.EnsureConsumerConfig | core/queue/helper.py:53-88 | Nothing changes for a missing durable, without drift, or with an unsupported field; otherwise exactly the drift is written |
| Consumer.EvolveSpec | core/queue/helper.py:69-76 | Writing the drift declares every field, changes nothing else, and there is no drift exactly when the configuration already agrees |
| Consumer.SubscribeTwice | core/queue/helper.py:69-72 | After a successful start, a second one with the same settings makes no update, leaves every declared field in place, and succeeds if and only if its binding does |
| Consumer.SubscribeWorker | worker/dispatcher.py:106-124 | Whatever the durable held before, a successful start makes the bound one above the handler's own the broker's, with the worker's ack wait and its limit of unacknowledged messages |
| Replicas.ReplicasConverge | core/queue/helper.py:53-88 | In every interleaving of replicas with one configuration, refusals and lost replies included, once one is bound the durable carries every declared field, keeps the rest, and never changes again |
| Replicas.NoFaultNoFailure | core/queue/helper.py:41-88 | In every execution without refusals and lost replies, whatever the other replicas do, a replica that has made its three calls is bound if and only if its declared fields are supported and an existing durable has its group |
| Replicas.RefusalChangesNothing | core/queue/helper.py:75-82 | A call the broker refuses changes nothing and fails the replica that made it |
| Composition.BadListsNeverReachTheBucket | adapters/renderers/xlsx.py:109-120 | A request with an over-long list never stores anything, in any format, and never gets a success, in any execution |
| Composition.BadMappingsNeverReachTheBucket | adapters/renderers/pdf_form.py:131-138 | A template that maps an undeclared field never leads to a stored artifact or a success, whatever the data |
| Composition.DeliveredWorkbookIsFilled | adapters/renderers/xlsx.py:75-88 | In every execution with agreeing keys, the workbook behind a posted success is the saved template with every name, block and cell of the request filled in |
| Composition.DeliveredFormIsFilled | adapters/renderers/pdf_form.py:82-116 | The form behind a posted success is its template with exactly the resolved values written into it |
| Composition.BadListsAreRefused | adapters/renderers/xlsx.py:109-120 | The first block with a bad list, when nothing before it fails, makes the request's answer a permanent validation error with the template's version |
| Composition.BadMappingsAreRefused | adapters/renderers/pdf_form.py:95-138 | A form without fields, or a mapping to an undeclared field, makes the request's answer a permanent missing-template error |
| Composition.TemplateSpec | adapters/template_store.py:135-143 | A served fetch hands over all files and the manifest parsed from `manifest.json`; one that does not validate, or was not served, is a missing template |
| Composition.TemplatesAreImmutable | adapters/template_store.py:56-74 | For every layout that allows it, any two fetches of one prefix, at any moments of an execution, that were not broken and missed no file hand the pipeline the same template |
| Composition.AnswersAreFates | domain/orchestrator.py:57-60 | What the handler does with any answer of the interleaved cache that was not broken is a step of the delivery machine; it is a misread only if the fetch missed a file or the layout is improper |
| Text.KeyIgnoresTrailingSlashes | domain/orchestrator.py:35-42 | Extra trailing slashes of the prefix do not change the key |
| Text.KeyJoinsByOneSlash | domain/orchestrator.py:35-42 | Prefix and filename are joined by exactly one slash |
| Text.KeyInjective | domain/orchestrator.py:35-42 | For slash-free filenames keys are equal exactly when filenames are equal and prefixes are equal up to trailing slashes |
| Text.ParsedIsCanonical | adapters/template_store.py:33-46 | Every accepted URI has a slash-free bucket and an empty or singly slash-terminated prefix |
| Text.ParseInvertsPrint | adapters/template_store.py:33-46 | Parsing inverts printing on canonical addresses |
| Text.ReparseIsStable | adapters/template_store.py:33-46 | Printing and parsing again any accepted URI is a fixed point |
| Text.ParseTrimsPrefix | adapters/template_store.py:33-46 | A URI with a prefix, whatever slashes surround it, names that prefix with one slash at its end |
| Text.BucketAloneHasNoPrefix | adapters/template_store.py:42-46 | A bucket followed by nothing or by slashes only has the empty prefix |
| Text.MalformedExactly | adapters/template_store.py:39-44 | A URI is refused exactly for another scheme or an empty bucket |

## Left out

- HTML, DOCX and WeasyPrint rendering, Jinja, DEFLATE, JSON Schema evaluation and SHA-256: foreign libraries, arbitrary pure functions here.
- openpyxl beyond cell values, merged cells and row flags: styles, formulas, properties and the saved bytes; the coordinate parsers, `dict()` and the check that a value can be stored are arbitrary functions.
- pypdf beyond setting the values of named fields page by page; the document identifier and appearance streams.
- The NATS and S3 clients, retries and presigning: only their success or failure, with writes that may have landed.
- Configuration, logging, tracing and heartbeat; metric calls are taken not to raise, since one of them stands inside the handler's `try` after a successful ack.
- Exact wording of error messages, and the time stamps in results, which are arbitrary strings read from a clock.
- Dispatcher.Session.StoreArtifact: the content type passed to the put is not part of the bucket model.
- Delivery.FireNoLoss: the payload of a message is a character per byte, and the request id and reason headers of a dead letter are fields of it.
- CacheStore.TemplateStore.Fetch: prefixes and keys with empty, `.` or `..` components and the escape guards are not modelled, since paths are sequences of proper components; in the object, unlike in the machine, the clean-up is complete.
- CacheStore.TemplateStore.DownloadPrefix: an object that vanishes after it was listed is answered as such, but the store's own content stays the same.
- Replicas.ReplicasConverge: replicas that declare different configurations do not converge, the last writer wins; deleting the durable during a start is not modelled.
- AcroForm.CombRoundTrip: `str()` of a value that is no string, and the folding of checkbox texts, are arbitrary functions.
- The render pool's rebuild after a dead worker and the choice of its size: plumbing around a call that may fail.
- Heartbeats, queue-depth polling and signal handling in `worker/main.py`.
- JSON numbers with fractions, which no modelled decision depends on.
