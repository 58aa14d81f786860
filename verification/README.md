# A verified model of mp_logger

mp_logger is a bounded in-memory log queue: many producers that never block, one worker that drains
the queue and hands rendered lines to a table of streams, a renderer for JSON and text lines, and a
loader for bootstrap configuration files. This project models the parts of it that are hard to get
right and proves what they guarantee, for every input and over every interleaving.

`dafny verify dfyconfig.toml` checks the whole project.

## What is here

| part | files |
|---|---|
| values: calls, records, statuses, C strings in buffers; facts about sequences | `Records`, `CStrings`, `Scanning`, `Sequences` |
| admission: field validation; what a line says about the call behind it | `Validation`, `CallLaw` |
| the queue: ring discipline, flat slot storage, enqueue and dequeue | `Ring`, `Layout`, `SlotStorage` |
| the streams, the cached level mask, the configuration in its callers' terms | `Streams`, `StreamTable`, `Config`, `ConfigurationLaws` |
| the concurrent protocol, its invariant, theorems over runs | `Protocol`, `ProtocolInvariant`, `ProtocolTheorems` |
| single calls over runs: logging, flush, start, shutdown, configure | `ProtocolCalls`, `ProtocolFlush`, `ProtocolLifecycle` |
| shutdown and draining over runs, what streams and the backup log receive, concrete runs | `ProtocolShutdown`, `ProtocolDrain`, `ProtocolDelivery`, `ProtocolReports`, `ProtocolRuns` |
| the renderer: a pure renderer, the bounded one, its capacity | `Decimal`, `Render`, `RenderBuffer`, `RenderCapacity`, `RenderTight` |
| reading lines back: an RFC 8259 parser, the JSON law, pretty output, UTF-8, the text law | `Json`, `JsonParseBack`, `JsonSpacing`, `Utf8`, `Utf8Scalars`, `JsonUtf8`, `TextParseBack` |
| configuration text: trimming, quotes, versions, stream lists | `Trimming`, `ConfigText`, `StreamList` |
| overrides, the bootstrap loader, what its lines mean, printing and loading back | `Overrides`, `Bootstrap`, `LineLaws`, `BootstrapRoundTrip` |
| the release scripts' version passes, the lines they tell apart, their agreement with the loader | `VersionFile`, `VersionLines`, `VersionLoads` |

Code that works on buffers and fields in place is modelled by methods on arrays and classes
(`LogQueue`, `Bank`, `StreamTable`, the renderer, the trimming and splitting loops, the line loop of
the loader, the two awk passes). Each is proved against a specification function, and the laws are
proved about those functions. The configuration struct, which the source copies whole, is a value.
The concurrent protocol is a state machine: each step is one access of one thread to shared state,
and `IsRun` lets the steps of any number of producers and flushers, the worker and the control thread
interleave freely.

## Assumptions

- Steps interleave in one global order (sequential consistency), and the plain `int` flags are read
  and written in single steps.
- Start, shutdown and configure come from one control thread, and streams are added by it or
  alongside it; each of their critical sections on the stream mutex is one step.
- Counters and capacity products do not wrap. Records are logged at levels of the enum.
- The level enum has no negative constant, so a compiler may hold it in an unsigned or in a signed 32-bit
  integer. The bounds of a `Stream` are the numbers that integer holds; where the choice matters, the
  statement is made for both (`Registered`).
- `isspace`, `iscntrl` and `isalnum` are those of the C locale. Strings hold no NUL byte; a `char` of
  the model is a byte of the program.
- A timestamp is an opaque text of at most 31 characters. A finite double is represented by the text
  that `%.17g` prints for it, which is taken to be a JSON number of at most 24 characters.

## Where the source promises more than it does

The model keeps the code as it is. Each gap has a concrete case and an exact condition.

- README.md:119 of the repository says that shutdown stops the worker after draining the queue.
  - The flag is set outside the queue mutex (src/mp_logger.c:975), so the signal can be lost:
    `ShutdownSignalCanBeLost`. `ShutdownSleepsIff`: the worker sleeps iff the signal found it between
    its test and its wait and nothing has woken it since.
  - A record can stay behind: `ShutdownCanLeaveRecord` (a producer past its check),
    `FailedWorkerLeavesRecord` (a worker without buffers). `DrainedQueueIsEmptyIff`: after a drained
    worker the queue is empty iff no sequence number was taken after the worker decided to leave.
    `UndrainedQueueIsEmptyIff` is the same for a worker without buffers. `QuietShutdownDelivers`: if no
    call is past its check when shutdown() is called, everything is drained and delivered.
- A JSON line is a JSON text only if it was not cut and the texts in it are UTF-8: `EscapesCanTruncate`,
  `AdmissionCanSplitCharacter` (the cut at admission can split a character of a well-formed message),
  and exactly when in `SinkGetsJsonIff` and `CutIsUtf8Iff`.
- The level mask and the worker's range test can disagree on bounds outside the enum, such as 3 to 7:
  `BoundsOutsideEnum`; for one range exactly when in `RangeAgreesIff`, for bounds as a caller writes them,
  with either kind of integer, in `CallerRangeDisagreesIff`, for a table in `TableAgreesIff`.
- src/mp_logger_bootstrap.c:73 promises a non-negative decimal value, and `strtoull` takes a minus sign:
  `NegativeCapacityIsTaken`. `SizeIsDenotedIff`: what is stored is the number denoted iff there is no
  minus sign or the digits denote zero; `NegativePortIff` says which negative ports pass.
- Trimming into a short buffer is not idempotent: `TrimToCanLeaveSpace`, `TrimToIsIdempotentIff`.
- A reconfiguration is checked before its names are trimmed, so it can leave a configuration that the
  logger itself refuses: `BlankNameIsTaken`, `ConfigureKeepsValidIff`.
- A log directory of 254 or 255 characters is valid, but printed in quotes it does not fit the
  loader's value buffer and loads as another directory: `LongDirectoryIsLost`, `PrintedConfigLoadsIff`.
- After the release scripts wrote a version, the program can load another one: the scripts take a
  comment that ends in a colon for a section heading (`CommentHidesVersion`), and they write versions
  that the loader cuts or refuses. `WrittenFileLoadsIff` is exact: the version has fewer than 64
  characters, the scripts print it only where the loader's section is the root, and the loader meets no
  other version below.

## Model

| member | source | states |
|---|---|---|
| `ProtocolInvariant.StepKeepsInv` | src/mp_logger.c:839-889 | every step of a producer, the worker, a flusher or the control thread keeps mutual exclusion, the ring, conservation of records, the callback logs, no lost wakeup, the life cycle, flush targets and the accounts |
| `ProtocolInvariant.RunInv` | src/mp_logger.c:294-411 | the invariant holds in every state of every run |
| `ProtocolInvariant.RunsExtend` | src/mp_logger.c:294-411 | the side condition of a run (indices in bounds) never disables a step |
| `ProtocolInvariant.ProducerConserves` | src/mp_logger.c:863-886 | between trylock and signal a producer moves its record through number, slot and count without losing, repeating or reordering any |
| `ProtocolInvariant.WorkerConserves` | src/mp_logger.c:344-403 | so does the worker from dequeue to the processed counter |
| `ProtocolInvariant.ProducerKeepsAccounts` | src/mp_logger.c:855-889 | a counter rises exactly when a producer becomes bound to the status it counts |
| `ProtocolTheorems.QueueIsFifo` | src/mp_logger.c:344-403 | with no producer in the lock, processed, in hand and queued records are in order exactly the admitted ones, numbered 1 to queued; processed never passes queued |
| `ProtocolTheorems.RunGrowsHistory` | src/mp_logger.c:559-582 | no admission is taken back; the stream table is append-only with at most eight distinct names |
| `ProtocolTheorems.DeliveryIsComplete` | src/mp_logger.c:369-400 | in every state each callback log is the worker's passes in order, filtered by the bounds the stream had at each pass, whatever status a write returned; streams are visited in registration order |
| `ProtocolTheorems.FlushCoversSnapshot` | src/mp_logger.c:932-953 | when flush is about to return OK, every record numbered before its snapshot has been handed to every accepting stream |
| `ProtocolFlush.FlushDelivers` | src/mp_logger.c:932-953 | from the entry on: a flush entered while the logger is started never answers by the empty queue, fails only by its timeout, and is about to return OK only once every record numbered before its entry has been handed to every accepting stream |
| `ProtocolFlush.IdleFlushAnswers` | src/mp_logger.c:938-940 | a flush entered while no worker is started reads the count once and answers OK if it was 0 and NOT_RUNNING otherwise |
| `ProtocolFlush.FlushGivesUpBehind` | src/mp_logger.c:943-952 | a waiting flush succeeds at its next look iff its snapshot has been processed, and fails only by giving up behind it |
| `ProtocolFlush.FlushReturnsIff` | src/mp_logger.c:932-953 | a flush ends exactly at its own next step once it has an answer |
| `ProtocolCalls.CallAnswers` | src/mp_logger.c:839-889 | in every interleaving a call answers by the order of its checks, each on the state it found: the arguments, the shutdown flag as the call began, the lock when it tried, the room when it looked; on OK it has admitted the record it stands for under the next number |
| `ProtocolLifecycle.ShutdownIsTheLastOrder` | src/mp_logger.c:820-836 | the shutdown flag is set iff some shutdown was called and no start has got past its checks since |
| `ProtocolLifecycle.StartedIsLaunched` | src/mp_logger.c:971-1010 | the logger counts as started iff a thread was created and has not been joined since, so a shutdown that timed out leaves it started |
| `ProtocolLifecycle.StartedHasStreams` | src/mp_logger.c:827-829 | no worker ever exists without a registered stream |
| `ProtocolLifecycle.ReconfigurationLasts` | src/mp_logger.c:534-625 | until the next accepted request the configuration is the requested one, every built-in stream that was registered has the bounds requested for its sink, every other stream its own |
| `ProtocolReports.PassFollowsLooks` | src/mp_logger.c:344-366 | before every pass and after the dequeue of its record the worker reads both drop counters, and what it has mirrored are the totals it read |
| `ProtocolReports.EndFollowsLooks` | src/mp_logger.c:405-411 | so it does once more before it ends |
| `ProtocolTheorems.BlockedWorkerMeansEmptyQueue` | src/mp_logger.c:340-343 | a worker blocked on a non-empty queue is still owed a signal; with no call in progress a blocked worker means an empty queue |
| `ProtocolShutdown.ShutdownSleepsIff` | src/mp_logger.c:971-985 | while shutdown stays requested after its signal, the worker sleeps iff the signal found it between its test and its wait and no step has woken it since |
| `ProtocolTheorems.WorkerLeavesDrained` | src/mp_logger.c:335-361 | the worker leaves its loop only with shutdown requested, the queue empty and everything processed |
| `ProtocolShutdown.ClosingQueueEmpties` | src/mp_logger.c:971-1010 | once shutdown is requested, no producer is past its check, and a worker that is already ending has left an empty queue: then the queue is empty from the moment a worker with buffers ends, in every interleaving, until the logger is started again |
| `ProtocolShutdown.QuietShutdownEmpties` | src/mp_logger.c:971-1010 | in particular if shutdown() is called while no call is past its check |
| `ProtocolShutdown.DrainedQueueIsEmptyIff` | src/mp_logger.c:335-411 | after the worker decides to leave, the queue is empty iff no sequence number has been taken since |
| `ProtocolShutdown.UndrainedQueueIsEmptyIff` | src/mp_logger.c:311-333 | if the worker got no buffers, the queue is empty iff all numbered records had been processed and no number has been taken since |
| `ProtocolTheorems.AdmissionIsAccounted` | src/mp_logger.c:855-889 | with no call in progress the numbers of OK, BUSY and QUEUE_FULL returns are the three counters |
| `ProtocolTheorems.DropsAreMirrored` | src/mp_logger.c:255-287 | mirrored drop totals strictly increase and end at the totals the ending worker reads |
| `ProtocolTheorems.CallsReturn` | src/mp_logger.c:839-889 | in any run a call in progress has at most eight of its producer's own steps left, each own step lowers that number, and no other thread's step changes it |
| `ProtocolTheorems.ProducerAlwaysSteps` | src/mp_logger.c:839-889 | any run can go on with the next step of any producer, whatever the others hold |
| `ProtocolDrain.AwakeWorkerDescends` | src/mp_logger.c:335-411 | after shutdown every step of an awake worker lowers a natural number |
| `ProtocolDrain.DrainIsBounded` | src/mp_logger.c:335-411 | in every interleaving no other thread raises it again, so an awake worker takes at most that many steps |
| `ProtocolDrain.DrainProcessesBacklog` | src/mp_logger.c:335-411 | in every interleaving, when such a worker has returned the queue is empty and it has processed exactly the queued records and the one in its hands |
| `ProtocolDrain.AwakeWorkerWaitsForProducer` | src/mp_logger.c:335-343 | until then it waits for nothing but a producer inside the queue lock |
| `ProtocolDrain.QuietShutdownDelivers` | src/mp_logger.c:971-1010 | if shutdown() is called while no call is past its check, then once a worker with buffers has ended everything numbered is processed and every admitted record has been handed to every accepting stream |
| `ProtocolDelivery.DeliveriesAreCalls` | src/mp_logger.c:369-400 | every line a stream ever received is the cut rendering of a valid call made earlier in the run, under the service, environment, format and punctuation configured at the worker's pass, with distinct valid keys; a JSON line that was not cut parses to an object that says what the caller passed under that service and environment, one that was cut does not parse, and it is a JSON text iff its texts are UTF-8 too |
| `ProtocolDelivery.FailuresAreMirrored` | src/mp_logger.c:369-400 | the backup log tells of a failed write exactly when one fails, with the stream's name and its status |
| `CallLaw.LineSaysCall` | src/mp_logger_streams.c:628-707 | the uncut JSON line of a validated call parses to its level by name, the message and context as far as they fit (a NULL or empty context is left out), and field by field the key passed with the string, flag or number passed, a NULL string as the empty one |
| `CallLaw.RecordSaysCall` | src/mp_logger.c:133-179 | the same of what is enqueued, before any rendering |
| `ProtocolRuns.ShutdownSignalCanBeLost` | src/mp_logger.c:971-985 | a reachable state in which the shutdown signal has been sent, none is pending, and shutdown waits to join a blocked worker |
| `ProtocolRuns.ShutdownCanLeaveRecord` | src/mp_logger.c:856-886 | a reachable state in which shutdown has returned and a record is still queued |
| `ProtocolRuns.FailedWorkerLeavesRecord` | src/mp_logger.c:311-333 | the same with a worker that got no buffers, for a call that returned before shutdown was requested |
| `Ring.WriteBehindWindow` | src/mp_logger.c:871-884 | writing the slot at the tail leaves the queue's contents alone |
| `Ring.GrowWindow` | src/mp_logger.c:884-885 | advancing tail and count appends exactly that slot |
| `Ring.ShrinkWindow` | src/mp_logger.c:355-357 | advancing the head drops exactly the first element |
| `Layout.CarvingIsPartition` | src/mp_logger.c:437-478 | for all capacities, slots and fields the carved regions lie in bounds and are pairwise disjoint |
| `SlotStorage.OtherRecordsSurvive` | src/mp_logger.c:133-179 | writes confined to one slot's regions leave the decoded record of every other slot unchanged |
| `SlotStorage.SlotHoldsOne` | src/mp_logger.c:182-249 | the storage determines the record of a slot |
| `SlotStorage.ValidCallsFit` | src/mp_logger.c:81-130 | what validation admits is stored whole: truncation of keys and string values never fires |
| `SlotStorage.Bank.Store` | src/mp_logger.c:871-883 | the slot then holds exactly the given record, message and context cut to capacity - 1, and nothing outside its regions changed |
| `SlotStorage.Bank.CopyOut` | src/mp_logger.c:182-249 | the worker's buffers then hold the record the slot held |
| `SlotStorage.Bank.ReadFields` | src/mp_logger.c:182-249 | following the stored pointers gives back keys, tags, values and order |
| `SlotStorage.LogQueue.Enqueue` | src/mp_logger.c:839-889 | one uninterrupted call: the status by validation, shutdown flag, lock and room, in that order; on OK the queue grows by the record the call stands for (what that record says is stated by `CallLaw.RecordSaysCall`), otherwise it does not change; BUSY and QUEUE_FULL are counted |
| `SlotStorage.LogQueue.Dequeue` | src/mp_logger.c:344-357 | the oldest record arrives whole in the worker's buffers and the queue loses exactly it |
| `Validation.ValidateFields` | src/mp_logger.c:81-130 | the nested loops return the status of the first violation in scan order |
| `Validation.ValidationIsExact` | src/mp_logger.c:81-130 | OK iff count, keys, lengths, values, floats and tags are all in order and keys are pairwise distinct; otherwise the status is that of the first offending field |
| `Validation.RefusalKind` | src/mp_logger.c:81-130 | a refused list gets LIMIT_EXCEEDED iff the first offence is a string at or over the size under an acceptable key, and INVALID_ARGUMENT otherwise |
| `Validation.RefusedOutright` | src/mp_logger.c:81-98 | a NULL message or a NULL list with a count is an invalid argument, too many fields exceed the limit, no fields are fine |
| `Validation.KeyCharsAre` | src/mp_logger.c:65-79 | the characters of a key, one by one |
| `JsonParseBack.ReservedAreTheOthers` | src/mp_logger.c:42-62 | reserved are exactly the names of the members that are not fields |
| `Validation.AdmittedFieldsAreDistinct` | src/mp_logger.c:42-130 | admitted records have distinct, valid, unreserved keys that fit |
| `CStrings.CopyTruncated` | src/mp_logger_streams.c:540-570 | the destination holds the source cut to capacity - 1, and nothing else changes |
| `StreamTable.RangeMask` | src/mp_logger.c:481-495 | bit l is set iff the bounds lie in the enum and contain l |
| `StreamTable.RangeAgreesIff` | src/mp_logger.c:481-495 | for which bounds, as the compiled code holds them, the mask and the worker's range test agree on every level |
| `StreamTable.TableAgreesIff` | src/mp_logger.c:921-929 | for which tables the level answer is right on every level: those in which every level accepted by a stream with bounds outside the enum is covered by one with bounds inside |
| `StreamTable.CallerRangeDisagreesIff` | src/mp_logger.c:481-495 | for bounds as a caller writes them, and a signed or an unsigned enum, exactly when the two tests disagree |
| `StreamTable.BoundsOutsideEnum` | src/mp_logger.c:481-495 | under either choice a stream from 3 to 7 receives records of levels reported as disabled, and beside a stream for all levels it does no harm |
| `StreamTable.NegativeMinimum` | src/mp_logger.c:481-495 | a negative minimum makes the tests disagree only where the enum is signed |
| `StreamTable.StreamTable.AddStream` | src/mp_logger.c:559-582 | status and table as specified; the table stays well formed and the mask agrees with it |
| `StreamTable.StreamTable.RefreshMask` | src/mp_logger.c:498-510 | the recomputed mask agrees with the table whatever it was before |
| `StreamTable.StreamTable.Configure` | src/mp_logger.c:584-625 | a compatible request retunes the built-in streams and the mask together, any other changes nothing |
| `ConfigurationLaws.SinkIsRetuned` | src/mp_logger.c:534-556 | the stream named like a sink's section takes that sink's minimum and maximum |
| `ConfigurationLaws.OtherStreamsKeepBounds` | src/mp_logger.c:534-556 | every other stream keeps its bounds |
| `ConfigurationLaws.OverrideReachesStream` | src/mp_logger_bootstrap.c:260-323 | a level that is overridden under a section is the bound of the stream of that name after configuring, and the other bound does not change |
| `ConfigurationLaws.ConfiguredIsRequest` | src/mp_logger.c:584-625 | after an accepted request the configuration is the request, its prefixes sanitized and its three names trimmed |
| `ConfigurationLaws.ValidIff` | src/mp_logger.c:417-434 | a configuration is valid iff every size is above its least and every text but the stream list and the UDP host is given |
| `ConfigurationLaws.SanitizedIs` | src/mp_logger_streams.c:572-584 | sanitizing keeps letters, digits, hyphens and underscores and makes every other character an underscore |
| `StreamTable.StreamTable.Destroy` | src/mp_logger_streams.c:841-856 | the table is empty and the mask agrees |
| `StreamTable.StreamTable.IsLevelEnabled` | src/mp_logger.c:921-929 | true iff not shut down and some registered stream with bounds in the enum covers the level |
| `Config.ConfigureAcceptsIff` | src/mp_logger.c:513-531 | a valid request is taken iff, with its prefixes sanitized, it differs from the current configuration only in the six settings that may change |
| `Config.ConfigureTwice` | src/mp_logger.c:584-625 | configuring twice is configuring once, and the configuration a logger was created from is always taken |
| `Config.ConfigureKeepsNames` | src/mp_logger.c:598-609 | the names keep fitting their 64-byte buffers |
| `Config.ConfigureKeepsValidIff` | src/mp_logger.c:589-609 | the new configuration is valid iff the requested names hold more than whitespace |
| `Config.BlankNameIsTaken` | src/mp_logger.c:589-609 | a request after which the logger refuses its own configuration |
| `Streams.TableStaysWellFormed` | src/mp_logger.c:534-582 | adding and retuning keep at most eight distinct non-empty names |
| `RenderBuffer.AppendEscaped` | src/mp_logger_streams.c:61-142 | the escaper loops append the pure escaping while the logical length runs on past the buffer |
| `RenderBuffer.AppendFieldValue` | src/mp_logger_streams.c:156-239 | each tagged value appends its pure rendering |
| `RenderBuffer.Finalize` | src/mp_logger_streams.c:242-250 | the buffer ends as the C string of the logical output cut to capacity - 1 |
| `RenderBuffer.RenderRecord` | src/mp_logger_streams.c:615-772 | for every capacity and any prior contents the buffer holds the pure line cut to capacity - 1, the result is its length, and nothing beyond the capacity is touched |
| `RenderCapacityBound.AdmittedPartsFit` | src/mp_logger.c:730-759 | an admitted call under a created or reconfigured logger meets the sizes the bound assumes |
| `RenderCapacityBound.LineLength` | src/mp_logger.c:753-759 | line, spare room and terminator fit the render capacity up to what escaping adds |
| `RenderCapacityBound.SmallGainFits` | src/mp_logger.c:753-759 | nothing is cut as long as escaping adds no more than 95 (JSON) or 131 (text) characters plus every field's unused share |
| `RenderCapacityBound.AdmittedCallFits` | src/mp_logger.c:753-759 | so for every admitted call |
| `RenderTight.SpareIsTight` | src/mp_logger.c:753-759 | the constants are exact: in both formats and for all sizes some line of parts that fit uses all the rest |
| `RenderCapacityBound.EscapesCanTruncate` | src/mp_logger.c:753-759 | with the default sizes an admissible record overflows the buffer and its line is not JSON |
| `JsonParseBack.EscapedParses` | src/mp_logger_streams.c:61-101 | the parser reads every escaped string back |
| `JsonParseBack.JsonParsesBack` | src/mp_logger_streams.c:628-707 | the uncut line parses by the grammar of RFC 8259 to one object whose ordered members are the built-in values, the context if not empty, and the typed fields, for either pretty setting |
| `JsonParseBack.BoundedJsonParsesIff` | src/mp_logger_streams.c:615-772 | what a sink receives follows the grammar if and only if nothing was cut |
| `JsonSpacing.LineSqueezes` | src/mp_logger_streams.c:628-707 | taking the spaces between tokens out of a line of either setting gives the compact line, so pretty output adds nothing else and compact output has none |
| `JsonSpacing.PrettySpaces` | src/mp_logger_streams.c:629-630 | pretty output adds one space behind every colon and every comma between members |
| `JsonUtf8.LineIsUtf8Iff` | src/mp_logger_streams.c:61-101 | a whole line is UTF-8 iff service, environment, message, context and field texts are |
| `JsonUtf8.SinkGetsJsonIff` | src/mp_logger_streams.c:615-772 | what a sink receives is a JSON text by RFC 8259, sections 4, 7 and 8.1, iff nothing was cut and those texts are UTF-8; it then means exactly the record |
| `JsonUtf8.AdmissionCanSplitCharacter` | src/mp_logger.c:873-882 | for every size some well-formed message is admitted as one that is not UTF-8 |
| `Utf8.CutIsUtf8Iff` | src/mp_logger_streams.c:540-570 | cutting well-formed text leaves well-formed text iff it fits or the first lost byte starts a character |
| `JsonParseBack.IntegersAreRecovered` | src/mp_logger_streams.c:156-196 | printed integers determine their values |
| `JsonParseBack.MemberNamesAreDistinct` | src/mp_logger_streams.c:695-706 | the object of an admitted record has pairwise distinct member names |
| `Json.NoPrefixParses` | src/mp_logger_streams.c:242-250 | no proper prefix of a one-object text is a JSON text, so a cut line never passes for a whole one |
| `TextParseBack.TextHasNoControl` | src/mp_logger_streams.c:104-142 | no text line, cut or whole, holds a control byte |
| `TextParseBack.TextReadsBack` | src/mp_logger_streams.c:708-768 | a text line reads back as the timestamp and the ordered key-value pairs |
| `TextParseBack.TextContentsAreRecovered` | src/mp_logger_streams.c:708-768 | message, optional context and ordered fields are recovered, thanks to the reserved names |
| `TextParseBack.TextContentsAreRecoveredIff` | src/mp_logger_streams.c:104-142 | for every record they read back with each other control byte as a question mark, so they are recovered iff they hold none but newline, carriage return and tab |
| `Trimming.TrimIsUnique` | src/mp_logger_bootstrap.c:126-153 | trimming removes exactly the whitespace around the trimmed core |
| `Trimming.TrimToIsIdempotentIff` | src/mp_logger_bootstrap.c:145-152 | when trimming into a buffer twice is the same as once |
| `Trimming.TrimToCanLeaveSpace` | src/mp_logger_bootstrap.c:145-152 | a case in which it is not |
| `ConfigText.CopyTrimmed` | src/mp_logger_bootstrap.c:127-153 | the scans and the move leave the trimmed and cut text, also when both buffers are the same |
| `ConfigText.UnquoteScalar` | src/mp_logger_bootstrap.c:45-57 | matching quotes are removed in place, anything else stays |
| `ConfigText.IsBuildVersionValid` | src/mp_logger_bootstrap.c:103-124 | the scanning loop accepts exactly three non-empty runs of digits joined by dots |
| `StreamList.WalkIsReference` | src/mp_logger_bootstrap.c:489-508 | the comma loop gives all trimmed non-empty pieces in order, or fails exactly when the table fills before the last visited piece |
| `StreamList.SplitStreamList` | src/mp_logger_bootstrap.c:473-509 | the in-place splitter refines that reference and never writes past the table |
| `StreamList.SplitOfJoinedNames` | src/mp_logger_bootstrap.c:473-509 | up to eight proper names joined by commas split into the same names |
| `Scanning.SplitOfJoin` | src/mp_logger_bootstrap.c:490-506 | splitting inverts joining pieces without the separator |
| `Scanning.JoinOfSplit` | src/mp_logger_bootstrap.c:490-506 | joining inverts splitting |
| `ConfigurationLaws.BoolTokens` | src/mp_logger_bootstrap.c:25-42 | true, yes and 1, or false, no and 0, the words in any case, and nothing else |
| `ConfigurationLaws.LevelTokens` | src/mp_logger_bootstrap.c:424-455 | each level by its name in any case, with the short form of warning |
| `ConfigurationLaws.FormatTokens` | src/mp_logger_bootstrap.c:457-470 | each format by its name in any case |
| `ConfigurationLaws.SizeIs` | src/mp_logger_bootstrap.c:74-87 | a text is taken as a size iff it is whitespace, a sign or none, and digits that denote less than 2^64, and then as that number, negated modulo 2^64 after a minus sign |
| `ConfigurationLaws.TargetIff` | src/mp_logger_bootstrap.c:326-376 | section and key reach a setting iff, trimmed, they are its names; cutting them to their buffers never makes a longer name match |
| `ConfigurationLaws.OverrideIsTakenIff` | src/mp_logger_bootstrap.c:352-376 | an override is taken iff it names a setting whose parser takes the value |
| `ConfigurationLaws.TextIsStoredWholeIff` | src/mp_logger_bootstrap.c:156-258 | which lengths of text each setting stores whole |
| `Overrides.MinusSignWraps` | src/mp_logger_bootstrap.c:74-87 | a negative number is accepted as its value modulo 2^64 |
| `Overrides.SizeIsDenotedIff` | src/mp_logger_bootstrap.c:73-87 | an accepted value is the number its text denotes iff there is no minus sign or the digits denote zero; otherwise it is off by 2^64 |
| `Overrides.PortIsDenotedIff` | src/mp_logger_bootstrap.c:89-100 | the same for ports |
| `Overrides.NegativePortIff` | src/mp_logger_bootstrap.c:89-100 | exactly which negative ports are accepted |
| `Overrides.SizeOverrideIsDenotedIff` | src/mp_logger_bootstrap.c:185-226 | the same for what an accepted override of a size stores |
| `Overrides.PortOverrideIsDenotedIff` | src/mp_logger_bootstrap.c:316-321 | the same for the port |
| `Overrides.NegativeCapacityIsTaken` | src/mp_logger_bootstrap.c:185-191 | buffer_capacity: -1 is taken as the largest 64-bit number |
| `Overrides.OverridesCommute` | src/mp_logger_bootstrap.c:326-376 | overrides of different settings commute, refusals included |
| `Overrides.LastOverrideWins` | src/mp_logger_bootstrap.c:326-376 | of two overrides of one setting only the last counts |
| `Overrides.FoldSucceedsIff` | src/mp_logger_bootstrap.c:352-376 | a list of overrides is taken iff every one of them would be taken alone |
| `Overrides.OrderBetweenSettingsIsFree` | src/mp_logger_bootstrap.c:326-376 | two lists that give each setting the same values in the same order give the same configuration |
| `Overrides.ApplyOverride` | src/mp_logger_bootstrap.c:352-376 | NULL arguments are invalid; otherwise the configuration changes as specified or not at all |
| `LineLaws.ChunksCover` | src/mp_logger_bootstrap.c:534 | the loader sees every byte of the file in order, in pieces that end with a newline, at 511 bytes or at the end of the file |
| `LineLaws.SkippedIff` | src/mp_logger_bootstrap.c:538-541 | it skips exactly blank lines and comments, as the version reader does |
| `LineLaws.LineMeans` | src/mp_logger_bootstrap.c:543-559 | what any other line means, by the text before and behind its first colon |
| `LineLaws.NoColonIsBad` | src/mp_logger_bootstrap.c:543-547 | a line without a colon is an error |
| `LineLaws.UnquotedIs` | src/mp_logger_bootstrap.c:45-57 | what stands between two equal quotation marks is unquoted, anything else stays |
| `LineLaws.VersionIff` | src/mp_logger_bootstrap.c:103-124 | a version is three non-empty runs of digits joined by dots |
| `ConfigurationLaws.YamlExtensionIff` | src/mp_logger_bootstrap.c:60-71 | a path is taken iff what follows its last dot is yaml or yml, in any case |
| `ConfigurationLaws.LoadAnswers` | src/mp_logger_bootstrap.c:516-569 | which of its four answers the loader gives |
| `Bootstrap.LoadIsFold` | src/mp_logger_bootstrap.c:534-564 | loading is the left fold of the overrides over the file's triples, or fails |
| `Bootstrap.LoadSucceedsIff` | src/mp_logger_bootstrap.c:534-564 | it succeeds iff no line is bad and every triple is accepted on its own |
| `Bootstrap.TakeLine` | src/mp_logger_bootstrap.c:538-559 | one pass takes the line apart in its buffers as specified and keeps the section |
| `Bootstrap.LoadText` | src/mp_logger_bootstrap.c:528-564 | the line loop computes the specified configuration |
| `Bootstrap.Load` | src/mp_logger_bootstrap.c:516-569 | the status as specified; the caller's configuration is replaced on OK and untouched otherwise |
| `BootstrapRoundTrip.DispatchIsBijective` | src/mp_logger_bootstrap.c:156-350 | every setting is reached from exactly one section and key |
| `BootstrapRoundTrip.PrintedFileLoads` | src/mp_logger_bootstrap.c:516-569 | a file with a line for every setting, in any order and with any comments in between, loads as the configuration it was printed from |
| `BootstrapRoundTrip.PrintedFileLoadsIff` | src/mp_logger_bootstrap.c:549-551 | the round trip holds iff the log directory, if quoted, has at most 253 characters |
| `BootstrapRoundTrip.PrintedConfigLoadsIff` | configs/logger.bootstrap.yaml:4-43 | the same for the shape of the shipped file |
| `BootstrapRoundTrip.LongDirectoryIsLost` | src/mp_logger_bootstrap.c:549-551 | a valid configuration that does not come back |
| `BootstrapRoundTrip.ShippedFileIsDefaults` | configs/logger.bootstrap.yaml:4-43 | the shipped settings load as the built-in defaults |
| `VersionFile.WriteVersion` | scripts/lib/version-env.sh:118-172 | an invalid version is refused; otherwise the file is rewritten as specified |
| `VersionFile.Rewrite` | scripts/lib/version-env.sh:131-169 | the writing pass computes the specified lines |
| `VersionFile.ReadVersion` | scripts/lib/version-env.sh:50-103 | the reading pass finds the specified version |
| `VersionLines.HeaderIff` | scripts/lib/version-env.sh:73 | what the heading pattern matches: a character that is no whitespace, none but the last a colon behind it, whitespace at the end |
| `VersionLines.IgnoredIff` | scripts/lib/version-env.sh:69 | what the reader skips: whitespace, and a comment behind whitespace |
| `VersionLines.FoundIsFirst` | scripts/lib/version-env.sh:60-96 | comments aside, the reader takes the first of the lines that the writer would replace |
| `VersionLines.SpacedVersionIsRead` | scripts/lib/version-env.sh:82-92 | it reads the value however the line is spaced and with or without its quotation marks |
| `VersionFile.ReadAfterWrite` | scripts/lib/version-env.sh:50-172 | reading after writing gives the written version, for every file |
| `VersionFile.WriteKeepsOthers` | scripts/lib/version-env.sh:131-169 | every line that is not a root build_version line is kept, in order |
| `VersionFile.WriteReplacesAll` | scripts/lib/version-env.sh:131-169 | every root build_version line becomes the written one, and one is added only if there was none |
| `VersionFile.WriteTwice` | scripts/lib/version-env.sh:131-169 | the last write wins |
| `VersionLoads.WrittenFileLoadsIff` | scripts/lib/version-env.sh:118-172 | a file that the loader takes is, after a rewrite, taken with the written version and nothing else changed iff the version fits the name buffer, the scripts print it only where the loader's section is the root, and the loader meets no other version below |
| `VersionLoads.WrittenFileOutcome` | scripts/lib/version-env.sh:118-172 | exactly what the loader makes of the rewritten file, for every version that fits its value buffer |
| `VersionLoads.LongVersionIsRefused` | scripts/lib/version-env.sh:131-169 | the scripts write versions of 254 characters and more, and the loader takes no such file |
| `VersionLoads.CommentHidesVersion` | scripts/lib/version-env.sh:136-144 | with a comment that ends in a colon above the version, the scripts report one version and the program loads another |
| `VersionLoads.CommentBelowIsHarmless` | scripts/lib/version-env.sh:136-144 | the same comment below the version does no harm |

## Left out

- File, stdio, UDP and backup-file output, paths and sockets: a stream is a log of its callbacks with a chosen status.
- Clocks and timestamp text: parameters.
- Timeouts of flush and shutdown: the waiting side may give up at any step.
- Memory order of the non-atomic flags, and start, shutdown or destroy from several threads.
- Allocation failures, except the worker that exits at once.
- Destroying a logger is modelled on the stream table only, not in the protocol.
- Name tables of levels and statuses, stats, built-in stream construction and the Go binding: they would only add easy members.
- The protocol works on record values; that slots store and return such values whole is proved in `SlotStorage`.
- `Overrides.Assigned`: the struct that an override updates in place is a value here, so aliasing of configuration pointers is not modelled.
- `VersionFile.Rewrite`: works on lines; that awk ends the last line with a newline is not modelled.
- `StreamTable.StreamTable.Destroy`: the destroy callbacks of the streams are not modelled.
