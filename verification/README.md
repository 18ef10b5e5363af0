# AutoGPT platform: verified models

Dafny models of the parts of the AutoGPT platform whose correctness is a claim about all runs or all
inputs, with proofs of those claims. `dafny verify dfyconfig.toml` checks everything.

| area | files |
|---|---|
| gtag command queue: gating, deferral, re-flushing | `CommandQueue`, `CommandQueueRuns`, `CommandQueueProgress` |
| gtag heartbeat and request client | `Heartbeat`, `HeartbeatRuns`, `HeartbeatLog`, `HeartbeatOrder` |
| gtag checksum, hash and codecs | `Crc32`, `Sha256`, `Sha256Constants`, `Sha256Stream`, `Base64`, `Features`, `IntCode`, with `Bits` for the 32-bit operators |
| gtag limiter, regional consent, completion tracker, once-per-load tags | `BurstLimiter`, `Consent`, `CompletionTracker`, `OnceTag` |
| keyed mutex over leased Redis locks | `KeyedMutex`, `KeyedMutexLocks` |
| sliding-window rate limiter | `RateLimit` |
| block documentation generator: printer, readers, check | `DocText`, `DocReaders`, `BlockDocs`, `BlockTables`, `BlockDocFiles`, `BlockDocsOrder`, `BlockDocsSettle`, `BlockDocsCheck`, `BlockDocsTree` |
| JSON schema flattening | `SchemaFlatten`, `SchemaMeaning`, `SchemaFailures` |
| WebSocket subscriptions and message loop | `ConnectionManager`, `ConnectionRuns`, `ConnectionDelivery` |
| AutoPilot recursion and permissions | `AutoPilot`, `Permissions` |

Each stateful component is a class whose methods follow the code's statements and are proved against
a state function. The claims are lemmas about that function: invariants over every run, round trips,
refinements of a simple definition, and the exact conditions under which a promise holds.

## Where the code keeps less than it promises

- Permissions: the documentation says a nested execution can only be more restrictive. An empty
  intersection of tools is stored as an empty list, which means all tools. `Permissions.MergeNarrowsIff`
  gives the condition. Blocks are always restricted by the whole chain.
- Heartbeat: an answer to a heartbeat that is not about a heartbeat, or a success without statistics,
  leaves no heartbeat, no timer and no dead state (`HeartbeatRuns.BeatGoesOnIffProper`, with the runs of
  `ImproperAnswerStopsTheClient`).
- Rate limiter: requests at the same time collapse into one (`RateLimit.CountEqualsLogIffDistinct`); what
  is kept then is the number of different times (`AllowedTimesStayWithinTheLimit`).
- Keyed mutex: releasing by key works only while the lock object is cached, and a late or stray
  release on the same lock object ends another task's lease (`KeyedMutex.LateExitInARun`,
  `StrayReleaseInARun`).
- Schema flattening changes the meaning or raises in the ways listed in `SchemaFailures`, each with its
  exact condition: a key on both levels with different arguments, a list of the same name inside,
  `additionalProperties` and `properties` on different levels, a property named with a leading `$` or
  like one of the three keywords, data that looks like a schema, and a Boolean schema as a list's element.
- Documentation: a line of three dashes inside a description or hand-written text, or after the first
  line of a field's type, cuts off what follows in the block, since newlines are folded only in the
  descriptions of table rows; and a carriage return in what is printed makes the check fail for good,
  because files are read with universal newlines (`BlockDocsCheck.SectionsSurviveIff`,
  `RulesComeFromTypes`, `BlockDocsTree.CheckPassesIff`).
- WebSocket: unsubscribing handles single executions only, so a subscription to a graph's executions
  lasts as long as the connection; and two users share channels exactly if one id begins with the other
  followed by `|graph_exec#` or `|graph#` (`ConnectionRuns.ShareChannelIff`, `AnotherUserIsReachedIff`).
- SHA-256: an update that is rejected after completing a block has already changed the hash, and it can
  have overwritten the bytes that were buffered (`Sha256Stream.OneByteThenRejected`).
- Integer code: from 2^31 on the signed shift loses high bits or leaves the alphabet
  (`IntCode.EncodedIsReadIff`).

## Assumptions

- Redis: SET-if-absent with token and expiry, compare-and-delete, and the limiter's pipeline are
  atomic; time is a number that all parties share. The mutex counts whole ticks, the limiter uses reals.
- JavaScript: numbers are exact integers here (all intermediate values are below 2^53). Handlers and
  callbacks are log entries and do not call back into the object that runs them.
- Regular expressions of the generator are first-match scans over lines; the files say which facts
  about the patterns this uses.
- AutoPilot: the nested executions of a copilot turn run one after the other in the same context.

## Model

| member | source | states |
|---|---|---|
| CommandQueue.Queue.Push | autogpt_platform/frontend/public/gtag.js:307 | pushing asks for the destination first: a `require` is queued and flushed when it is seen for the first time, then the command; the new state is that of the specification |
| CommandQueue.Queue.Register | autogpt_platform/frontend/public/gtag.js:307 | registering twice changes nothing; the first time marks and logs the registration and then runs the queue, which `CommandQueueProgress.TriggerRunsTheQueue` states on the queue and the log |
| CommandQueue.Queue.Flush | autogpt_platform/frontend/public/gtag.js:308-318 | the loop with its shifts, the deferred commands put back at the end, the early return at a `require`, and the second flush after a `config`; it ends because either the queue weight or the queue length goes down |
| CommandQueue.Queue.Perform | autogpt_platform/frontend/public/gtag.js:311-315 | what one command does: `config` configures its destination, and which commands reach the handler |
| CommandQueueRuns.RunKeeps | autogpt_platform/frontend/public/gtag.js:307-318 | the invariant of shape, order, requires ahead, history and conservation holds after every run of pushes, registrations and flushes |
| CommandQueueRuns.NothingRunsEarly | autogpt_platform/frontend/public/gtag.js:297-318 | in every run a command for a destination ran only after that destination was registered, one still marked deferrable when queued only after a `config` for it, and the handler saw exactly the commands due to it |
| CommandQueueRuns.RequireStaysAhead | autogpt_platform/frontend/public/gtag.js:307-318 | while a destination is unregistered, every command queued for it has its `require` before it, also after deferred commands moved to the back |
| CommandQueueRuns.UnmarkedRunInPushOrder | autogpt_platform/frontend/public/gtag.js:307-318 | commands never marked deferrable run in push order, and before those of them still queued |
| CommandQueueRuns.NothingIsLostOrRepeated | autogpt_platform/frontend/public/gtag.js:307-318 | executed plus queued is, as a multiset, everything ever pushed or inserted |
| CommandQueueRuns.FlushLeaves | autogpt_platform/frontend/public/gtag.js:308-318 | from any state a flush either stops at the `require` of an unregistered destination or leaves only deferrable commands whose destination is not configured |
| CommandQueueRuns.FlushDrains | autogpt_platform/frontend/public/gtag.js:308-318 | after a run, if all queued destinations are registered, a flush leaves only deferrable commands for destinations that were never configured in the whole run |
| CommandQueueProgress.NothingWaitsInVain | autogpt_platform/frontend/public/gtag.js:307-318 | at every point of every run the queue begins with the `require` of a destination never registered, or holds only deferrable commands that have no destination or one without a `config` |
| CommandQueueProgress.TriggerRunsTheQueue | autogpt_platform/frontend/public/gtag.js:307-318 | after a first registration, a push that is not left to wait, or a flush, the same holds and no command without a destination is left either |
| CommandQueueProgress.RegisteredHasRun | autogpt_platform/frontend/public/gtag.js:307-318 | once all destinations with queued commands are registered, each command ever pushed has run, except deferrable ones without a destination or whose destination has had no `config` |
| CommandQueueProgress.OtherwiseNothingRuns | autogpt_platform/frontend/public/gtag.js:307 | a repeated registration changes nothing, and a deferrable push whose destination was named before and has had no `config` runs nothing and goes to the end of the queue |
| CommandQueueProgress.CreatedIsPushed | autogpt_platform/frontend/public/gtag.js:307 | the commands of a run are the pushed ones with kind, target and update flag, in order, with one `require` before the first mention of each destination; and which of them are marked deferrable |
| CommandQueueProgress.PassDoes | autogpt_platform/frontend/public/gtag.js:308-318 | what one pass does to any queue, without recursion: up to the first `require` it waits for, commands that are not deferrable run in order, ready deferrable ones after them in order, and the others wait in order |
| Heartbeat.Client.RunBeatCallback | autogpt_platform/frontend/public/gtag.js:489-496 | the three outcomes of a heartbeat: failure that is final or retried, success, and an answer that is neither |
| Heartbeat.Client.Succeed | autogpt_platform/frontend/public/gtag.js:494 | a success readies the client, resets the failures, sends what waits and sets the next timer |
| Heartbeat.Client.MakeRequest | autogpt_platform/frontend/public/gtag.js:500-503 | a request enters the pending map, is sent at once or kept unsent, or is answered at once when the client is dead |
| Heartbeat.Client.FinishRequest | autogpt_platform/frontend/public/gtag.js:506 | a pending request leaves the map before its callback runs; what the callback gets and settles is stated by `HeartbeatLog.CallbacksGet` and `SettledExactlyWhen` |
| HeartbeatRuns.StepKeeps | autogpt_platform/frontend/public/gtag.js:483-507 | every enabled step keeps the invariant, and what it does to the number of things that keep the client beating |
| HeartbeatRuns.EnabledCanStep | autogpt_platform/frontend/public/gtag.js:483-507 | in every run each enabled step is possible, so what is said of runs leaves none out |
| HeartbeatRuns.EveryCallbackRunsOnce | autogpt_platform/frontend/public/gtag.js:500-506 | in every run the callback of a request is owed exactly while its id is pending, and has run exactly once afterwards |
| HeartbeatRuns.ReadyMeansSent | autogpt_platform/frontend/public/gtag.js:500-504 | no request is sent twice, and in the ready state no pending request is unsent |
| HeartbeatRuns.ExactlyOnePulse | autogpt_platform/frontend/public/gtag.js:488-506 | from `init` on exactly one of pending heartbeat, set timer, dead state holds; or none of them, and that exactly if some answer to a heartbeat was improper |
| HeartbeatRuns.BeatGoesOnIffProper | autogpt_platform/frontend/public/gtag.js:490-495 | an answer to the pending heartbeat keeps the client going if and only if it is about a heartbeat and, when it is a success, carries statistics |
| HeartbeatRuns.ImproperAnswerStopsTheClient | autogpt_platform/frontend/public/gtag.js:490-495 | every improper answer to the first heartbeat is a run that ends with nothing pending, no timer and no dead state |
| HeartbeatRuns.DeadExactlyWhen | autogpt_platform/frontend/public/gtag.js:491-494 | the client is dead exactly when a reply said so or 21 heartbeats in a row have failed |
| HeartbeatRuns.DeadIsFinal | autogpt_platform/frontend/public/gtag.js:493-506 | the dead state is never left, has nothing pending, and sends nothing |
| HeartbeatLog.SettledExactlyWhen | autogpt_platform/frontend/public/gtag.js:500 | in every run a request is settled at most once: as succeeded exactly if it is a command whose callback was called with a message about a command that carries a result, as failed exactly if that message carries none |
| HeartbeatLog.TimeoutsAndDeathsFail | autogpt_platform/frontend/public/gtag.js:500-506 | a command that times out, is pending when the client dies, or is asked of a dead client is settled as failed in that step |
| HeartbeatLog.CallbacksGet | autogpt_platform/frontend/public/gtag.js:489-506 | which callbacks a step calls and with what: the answer unchanged, the timeout's code, the code of the death for all that was pending in the order of asking, and nothing else; and that the death is announced with its code |
| HeartbeatLog.OutcomesAreAnswers | autogpt_platform/frontend/public/gtag.js:489-494 | the outcomes counted are exactly those that the answers to heartbeats say |
| HeartbeatOrder.PhaseIsLastOutcome | autogpt_platform/frontend/public/gtag.js:488-496 | the client is ready exactly if the last counted heartbeat succeeded, retrying or dead exactly if it failed, and idle or starting exactly if there was none |
| HeartbeatOrder.AnnouncedExactly | autogpt_platform/frontend/public/gtag.js:493-494 | each time the client becomes ready is announced, the first one as such and the others as a recovery, and its death once; nothing else is |
| HeartbeatOrder.CommandsAreSentInOrder | autogpt_platform/frontend/public/gtag.js:500-504 | in every run commands are sent in the order of asking, also those that waited |
| HeartbeatOrder.CommandsAreSentWhenReady | autogpt_platform/frontend/public/gtag.js:500-504 | a step that does not end in the ready state sends no command |
| HeartbeatOrder.CountFollowsTheWorker | autogpt_platform/frontend/public/gtag.js:489-494 | the count of heartbeats is the number asked, replaced by the worker's count whenever a success shows that more than 20 behind |
| HeartbeatOrder.CorrectionIsAnnounced | autogpt_platform/frontend/public/gtag.js:494 | that replacement is reported, and only then |
| HeartbeatOrder.UnknownIsReported | autogpt_platform/frontend/public/gtag.js:506 | an answer to a request that is not pending has no effect but its report |
| KeyedMutex.World.LookUpLock | autogpt_platform/autogpt_libs/autogpt_libs/utils/synchronize.py:39-44 | the cached lock object of the process is used, or a new one is created and cached; how new it is and how long it is shared is stated by `KeyedMutexLocks.NewLockIsNew` and `SameLockIff` |
| KeyedMutex.World.SetIfAbsent | autogpt_platform/autogpt_libs/autogpt_libs/utils/synchronize.py:45 | an attempt succeeds exactly when no live lease exists, and then takes the lease with a fresh token |
| KeyedMutex.World.Guard | autogpt_platform/autogpt_libs/autogpt_libs/utils/synchronize.py:34 | the two awaited guards before a release |
| KeyedMutex.World.TakeToken | autogpt_platform/autogpt_libs/autogpt_libs/utils/synchronize.py:35 | a release first takes the token away from the lock object |
| KeyedMutex.World.CompareAndDelete | autogpt_platform/autogpt_libs/autogpt_libs/utils/synchronize.py:35 | the lease is deleted only if it still carries the token taken |
| KeyedMutex.AtMostOneInside | autogpt_platform/autogpt_libs/autogpt_libs/utils/synchronize.py:28-54 | over all interleavings of tasks and processes, with evictions and re-created lock objects, if sections and their releases end before the lease does, at most one task is inside |
| KeyedMutex.TimelyExitFrees | autogpt_platform/autogpt_libs/autogpt_libs/utils/synchronize.py:28-35 | a timely exit passes both guards and frees the lease |
| KeyedMutex.LeavingFrees | autogpt_platform/autogpt_libs/autogpt_libs/utils/synchronize.py:28-35 | in a timely run leaving `locked` frees it whatever the cache then holds |
| KeyedMutex.ReleaseRemovesOwnLease | autogpt_platform/autogpt_libs/autogpt_libs/utils/synchronize.py:34-35 | with no timing assumption, a release through one lock object never removes a lease taken through another |
| KeyedMutex.ExitFreesIffOwned | autogpt_platform/autogpt_libs/autogpt_libs/utils/synchronize.py:34-35 | an exit frees a live lease if and only if its lock object carries the lease's token |
| KeyedMutex.ReleaseByKeyFreesIffStillCached | autogpt_platform/autogpt_libs/autogpt_libs/utils/synchronize.py:48-54 | `release(key)` by the holder frees the lease if and only if the cache still holds the lock object it was acquired through |
| KeyedMutex.LateExitInARun | autogpt_platform/autogpt_libs/autogpt_libs/utils/synchronize.py:28-35 | for every timeout, a run from the start in which a section outlives its lease and its exit ends the lease of the task that is inside |
| KeyedMutex.StrayReleaseInARun | autogpt_platform/autogpt_libs/autogpt_libs/utils/synchronize.py:48-54 | for every timeout, a run from the start in which `release(key)` by a task that never acquired the key ends the lease of the task that is inside |
| KeyedMutexLocks.NewLockIsNew | autogpt_platform/autogpt_libs/autogpt_libs/utils/synchronize.py:39-44 | a look-up without a cache entry makes a lock object that no cache, task, token, issued token or lease has referred to at any earlier moment of the run |
| KeyedMutexLocks.CachesDiffer | autogpt_platform/autogpt_libs/autogpt_libs/utils/synchronize.py:39-44 | in every run the cache entries of different processes are different lock objects |
| KeyedMutexLocks.SameLockIff | autogpt_platform/autogpt_libs/autogpt_libs/utils/synchronize.py:39-44 | two look-ups of a run lead to the same lock object if and only if they were made in one process whose cache did not lose its entry in between |
| KeyedMutexLocks.LeaseWasTaken | autogpt_platform/autogpt_libs/autogpt_libs/utils/synchronize.py:45 | every lease in Redis was taken by an attempt in the run, with a token never issued before |
| KeyedMutexLocks.LeaseEndsInItsProcess | autogpt_platform/autogpt_libs/autogpt_libs/utils/synchronize.py:34-54 | with no assumption on timing, evictions or callers, only a task of the process that took a lease ends it before another attempt replaces it expired |
| KeyedMutexLocks.AttemptSucceedsIff | autogpt_platform/autogpt_libs/autogpt_libs/utils/synchronize.py:39-45 | in every run an attempt succeeds if and only if there is no lease or the one there is was taken at least the timeout before |
| KeyedMutexLocks.TokenIsReleasedOnce | autogpt_platform/autogpt_libs/autogpt_libs/utils/synchronize.py:35 | a token on its way to Redis is in one task only and in no lock object |
| RateLimit.RateLimiter.CheckRateLimit | autogpt_platform/autogpt_libs/autogpt_libs/rate_limit/limiter.py:26-51 | prune, add, count and re-expire as one step, and the verdict, remaining count and reset time |
| RateLimit.CountsDistinctTimes | autogpt_platform/autogpt_libs/autogpt_libs/rate_limit/limiter.py:36-46 | the count is the number of distinct request times of the client in the last minute of the full log, refused requests included, in spite of pruning and expiry |
| RateLimit.CountEqualsLogIffDistinct | autogpt_platform/autogpt_libs/autogpt_libs/rate_limit/limiter.py:36-46 | the count equals the number of requests in the log's last minute if and only if no two of them share a time |
| RateLimit.VerdictIsFromTheLog | autogpt_platform/autogpt_libs/autogpt_libs/rate_limit/limiter.py:36-51 | with a strict clock the verdict is the one the full log gives |
| RateLimit.NoMinuteExceedsTheLimit | autogpt_platform/autogpt_libs/autogpt_libs/rate_limit/limiter.py:36-51 | with a strict clock no half-open minute of any run holds more than the limit of allowed requests |
| RateLimit.AllowedTimesStayWithinTheLimit | autogpt_platform/autogpt_libs/autogpt_libs/rate_limit/limiter.py:36-51 | with any clock that does not go back, the allowed requests of a client in a half-open minute carry at most `max` different times |
| RateLimit.WellBehavedIsNeverRefused | autogpt_platform/autogpt_libs/autogpt_libs/rate_limit/limiter.py:36-51 | a client that stays within the limit in every minute is never refused |
| RateLimit.SameInstantEscapesTheLimit | autogpt_platform/autogpt_libs/autogpt_libs/rate_limit/limiter.py:42 | any number of requests at one instant are all allowed, under a limit of one |
| RateLimit.RemainingIsExact | autogpt_platform/autogpt_libs/autogpt_libs/rate_limit/limiter.py:48-51 | with a strict clock, as long as no counted request has left the minute, a further request is allowed if and only if it is among the first `remaining` ones |
| RateLimit.ResetIsTheEnd | autogpt_platform/autogpt_libs/autogpt_libs/rate_limit/limiter.py:49 | the last request counts until the reset time, and from the end of that second on none of those so far does |
| DocReaders.SectionsTake | autogpt_platform/backend/scripts/generate_block_docs.py:354-365 | a section printed on its own lines is read back stripped, and the scan goes on after it |
| DocReaders.SectionsAreClean | autogpt_platform/backend/scripts/generate_block_docs.py:354-365 | whatever is extracted is trimmed and holds no closing marker |
| DocReaders.PartStartsAt | autogpt_platform/backend/scripts/generate_block_docs.py:732-739 | whatever follows a heading and a blank line, the part found under that heading is the lines up to the next line of three dashes |
| DocReaders.HeaderIsFound | autogpt_platform/backend/scripts/generate_block_docs.py:711-726 | a printed file header gives its description back |
| DocReaders.UnclosedIsLost | autogpt_platform/backend/scripts/generate_block_docs.py:358-362 | a section without a closing marker is not read |
| BlockDocs.GenerateBlockMarkdown | autogpt_platform/backend/scripts/generate_block_docs.py:368-447 | the string of one block: the lines joined by newlines, where a type that holds newlines prints several lines |
| BlockDocs.WriteInputTable | autogpt_platform/backend/scripts/generate_block_docs.py:395-410 | the lines of the input table: hidden fields left out, pipes escaped, the newlines of a description folded and those of a type kept |
| BlockDocFiles.GetBlockFileMapping | autogpt_platform/backend/scripts/generate_block_docs.py:450-476 | every block is filed once, under the path of its file, in the given order |
| BlockDocFiles.WriteFile | autogpt_platform/backend/scripts/generate_block_docs.py:696-762 | the written string: header with the kept description, the blocks with the texts kept for them, the additional section; that they are in the order of their names is stated on this string by `BlockDocsOrder.HeadingsInOrder` |
| BlockDocsOrder.HeadingsInOrder | autogpt_platform/backend/scripts/generate_block_docs.py:729 | in the written string, for any earlier content, the headings of all blocks stand one after the other in the order of their names, told by the first place where two differ, and in the given order where two are equal |
| BlockDocsOrder.FileListsNamesInOrder | autogpt_platform/backend/scripts/generate_block_docs.py:729 | if no other printed line looks like one, the lines of the string that look like block headings are exactly those, in that order |
| BlockDocsOrder.ShareFileIff | autogpt_platform/backend/scripts/generate_block_docs.py:460-474 | two blocks share a file exactly if both come from subdirectories with the same directory and file name, or both do not and their primary categories are equal or both unlisted |
| BlockTables.InputRowReadsBackIff | autogpt_platform/backend/scripts/generate_block_docs.py:402-409 | a printed row's cells read back as name, description on one line, type, and whether the input is required, whatever pipes are in description and type, if and only if no pipe is in the name |
| BlockTables.TablesReadBack | autogpt_platform/backend/scripts/generate_block_docs.py:395-426 | in a printed block, under the heading of each table stand exactly the fields that are not hidden, in order, and read back so; for names without pipes, names and types on one line, and no other line that is a table's heading |
| BlockTables.OneLineIs | autogpt_platform/backend/scripts/generate_block_docs.py:407 | of a description only the newlines change, each to a space |
| BlockDocFiles.DocTree.Write | autogpt_platform/backend/scripts/generate_block_docs.py:680-787 | the strings in the tree after a write: every file that gets a block is replaced, all others stay |
| BlockDocFiles.DocTree.Check | autogpt_platform/backend/scripts/generate_block_docs.py:790-941 | the check is true exactly if every file, the overview and the summary are there and, as they are read, equal what would be written up to surrounding white space |
| BlockDocsSettle.SortKeeps | autogpt_platform/backend/scripts/generate_block_docs.py:729 | sorting the blocks of a file loses and repeats none |
| BlockDocsSettle.PartIsRead | autogpt_platform/backend/scripts/generate_block_docs.py:729-739 | a printed block, wherever it stands, is found by its name: all it printed up to its first line of three dashes and nothing of its neighbours |
| BlockDocsSettle.DescriptionIsKept | autogpt_platform/backend/scripts/generate_block_docs.py:711-726 | the file description is the same after a write |
| BlockDocsCheck.ManualIsRead | autogpt_platform/backend/scripts/generate_block_docs.py:729-745 | what is read back of each block of a written file: the hand-written sections before its first line of three dashes |
| BlockDocsSettle.AdditionalIsKept | autogpt_platform/backend/scripts/generate_block_docs.py:747-757 | the additional content of a file is the same after a write |
| BlockDocsCheck.ManualTextSurvives | autogpt_platform/backend/scripts/generate_block_docs.py:696-762 | every hand-written section of a block or file that is still generated is read back from the string that a write leaves |
| BlockDocsCheck.SecondWriteChangesNothing | autogpt_platform/backend/scripts/generate_block_docs.py:696-762 | writing a file again gives the same string |
| BlockDocsCheck.SectionsSurviveIff | autogpt_platform/backend/scripts/generate_block_docs.py:729-745 | after a write the explanation, the use case and the extras of a block are each read back if and only if no line of three dashes is in them or before them: in the description, the explanation, the table rows, the use case |
| BlockDocsCheck.RulesComeFromTypes | autogpt_platform/backend/scripts/generate_block_docs.py:400-426 | a table row holds such a line exactly when the type of a field that is shown has one after its first line |
| BlockDocsTree.ReturnFailsCheck | autogpt_platform/backend/scripts/generate_block_docs.py:380-426 | with a carriage return in a title, name, description or type the check fails, whatever is on disk |
| BlockDocsTree.CheckPassesIff | autogpt_platform/backend/scripts/generate_block_docs.py:680-941 | the check passes right after a write if and only if nothing printed in a file, and nothing inside the two index pages, holds a carriage return, and every hand-written section is either read back or the placeholder |
| BlockDocsTree.MissingFails | autogpt_platform/backend/scripts/generate_block_docs.py:790-941 | whatever is on disk, the check fails if the file of a block is missing or blank, or an index page is missing |
| BlockDocsTree.SecondTreeWriteChangesNothing | autogpt_platform/backend/scripts/generate_block_docs.py:680-787 | under the condition on the files writing the tree again changes nothing |
| BlockDocsTree.CheckPassesAfterWrite | autogpt_platform/backend/scripts/generate_block_docs.py:680-941 | without lines of three dashes and carriage returns the check passes right after a write |
| BlockDocsSettle.SectionsNeedNoRule | autogpt_platform/backend/scripts/generate_block_docs.py:732-739 | of a printed block between any other text exactly the sections before its first line of three dashes are read back |
| SchemaMeaning.FlatHasNoDollar | autogpt_platform/backend/backend/blocks/_base.py:146-162 | whatever flattening returns has no key beginning with `$` at any depth, for every input and key order |
| SchemaMeaning.PlainStaysIff | autogpt_platform/backend/backend/blocks/_base.py:146-162 | data is returned unchanged if and only if no object in it has a key beginning with `$` or a one-element value under one of the three keys |
| SchemaMeaning.FlatLevel | autogpt_platform/backend/backend/blocks/_base.py:146-162 | one level: without a list of one element every field but the `$` ones is kept and flattened; with one, exactly one such list goes and its element's fields override the others |
| SchemaMeaning.FlatteningKeepsMeaning | autogpt_platform/backend/backend/blocks/_base.py:146-162 | a schema is flattened to one that accepts exactly the same values, if the keys on both levels of a merge have equal arguments or assert nothing, the inner level has no list of the same name, `additionalProperties` sees the same `properties` as before, no property name begins with `$` or is merged like a keyword, and the data of asserting keywords is plain (section 10.2.1 of JSON Schema Core 2020-12 for the three list keywords) |
| SchemaMeaning.OrderDoesNotMatter | autogpt_platform/backend/backend/blocks/_base.py:150-151 | for such a schema the order in which the three keys are tried does not change the meaning |
| SchemaFailures.SharedKeysIff | autogpt_platform/backend/backend/blocks/_base.py:152-153 | on objects of ordinary keywords a merge keeps the meaning, for every meaning of the keywords, if and only if keys on both levels have equal arguments |
| SchemaFailures.NestedListIsLostIff | autogpt_platform/backend/backend/blocks/_base.py:150-159 | a list of the same name inside is dropped, whatever is beside it on both levels: flattening does not raise and keeps the rest, so the meaning stays if and only if what the inner list asserts follows from the rest |
| SchemaFailures.SplitPropertiesIff | autogpt_platform/backend/backend/blocks/_base.py:152-153 | with `additionalProperties` and `properties` on different levels, either way round, the meaning stays if and only if the former accepts whatever the declared properties accept |
| SchemaFailures.DollarPropertiesIff | autogpt_platform/backend/backend/blocks/_base.py:155-159 | the schemas of properties named with a leading `$` are dropped, so the meaning stays if and only if each of them accepts everything |
| SchemaFailures.KeyNamedPropertyRaisesIff | autogpt_platform/backend/backend/blocks/_base.py:150-153 | a schema of properties raises if and only if one of them is named like one of the three keys and its schema is a Boolean or has a single key |
| SchemaFailures.DataStaysIff | autogpt_platform/backend/backend/blocks/_base.py:146-162 | the data of an ordinary keyword keeps its meaning, for every meaning of the keyword, if and only if flattening leaves it unchanged |
| SchemaFailures.SchemaRaisesIff | autogpt_platform/backend/backend/blocks/_base.py:146-162 | flattening a value in the form of a schema raises if and only if, at the top or anywhere below what the merges keep, a Boolean schema has to be merged |
| Crc32.ShiftsLinear | autogpt_platform/frontend/public/gtag.js:394 | the shift steps are linear over exclusive or |
| Crc32.LookIsRun | autogpt_platform/frontend/public/gtag.js:394 | one table look-up is the eight bit-at-a-time steps for the low byte of the character code |
| Crc32.LooksIsRun | autogpt_platform/frontend/public/gtag.js:394 | the look-up loop over a text is the bit-at-a-time run over all its bits |
| Crc32.BurstIsDetected | autogpt_platform/frontend/public/gtag.js:394 | texts that differ within four neighbouring characters have the same checksum if and only if the low bytes of those characters agree |
| Crc32.Fingerprint.BuildTable | autogpt_platform/frontend/public/gtag.js:394 | the table holds, for each byte, eight shift steps |
| Crc32.Fingerprint.Hash | autogpt_platform/frontend/public/gtag.js:394 | the hash is the bit-at-a-time CRC-32 of the low bytes (section 8 of RFC 1952); the table is built once |
| Sha256.WordsAgree | autogpt_platform/frontend/public/gtag.js:166 | four bytes joined by signed shifts are their big-endian number |
| Sha256.SmallAgree | autogpt_platform/frontend/public/gtag.js:166 | the schedule's two expressions on signed numbers are the two small sigma functions |
| Sha256.BigAgree | autogpt_platform/frontend/public/gtag.js:167-168 | the round's two rotations are the two big sigma functions |
| Sha256.ChoicesAgree | autogpt_platform/frontend/public/gtag.js:167-168 | the round's two choices are Ch and Maj |
| Sha256Constants.RoundConstantsAreRoots | autogpt_platform/frontend/public/gtag.js:176 | the round constants are the first 32 bits of the fractional parts of the cube roots of the first 64 primes (section 4.2.2 of FIPS 180-4) |
| Sha256Constants.InitialHashIsRoots | autogpt_platform/frontend/public/gtag.js:177 | the initial hash value comes from the square roots of the first eight (section 5.3.3) |
| Sha256Stream.NextWord | autogpt_platform/frontend/public/gtag.js:166 | a turn of the schedule loop computes the next word of step 1 of section 6.2.2 of FIPS 180-4 |
| Sha256Stream.RoundAgrees | autogpt_platform/frontend/public/gtag.js:167-168 | a turn of the round loop, with its signed sums grouped differently, is one round of step 3 of section 6.2.2 of FIPS 180-4 |
| Sha256Stream.FinishAgrees | autogpt_platform/frontend/public/gtag.js:169 | the final sums are step 4 of section 6.2.2 of FIPS 180-4 |
| Sha256Stream.Hasher.CompressBlock | autogpt_platform/frontend/public/gtag.js:165-170 | the registers afterwards are those of section 6.2.2 of FIPS 180-4 for the buffered block |
| Sha256Stream.Hasher.Reset | autogpt_platform/frontend/public/gtag.js:164 | the registers start at the initial hash value, with nothing buffered or counted |
| Sha256Stream.Hasher.Update | autogpt_platform/frontend/public/gtag.js:171-175 | a text or array of bytes is absorbed; an element that is no byte ends the call with count and total unchanged and completed blocks already hashed, so the state is unharmed if no block was completed; in every case the whole block buffer afterwards |
| Sha256Stream.AbsorbMore | autogpt_platform/frontend/public/gtag.js:171-175 | absorbing more goes on from the hash and the tail |
| Sha256Stream.SplitDoesNotMatter | autogpt_platform/frontend/public/gtag.js:171-175 | however a message is split into updates, the hash is the fold of the compression step over the full 64-byte blocks, the buffer holds the tail and the count is the length |
| Sha256Stream.TailIsSuffix | autogpt_platform/frontend/public/gtag.js:171-174 | what is buffered is the last part of the message |
| Sha256Stream.TailSurvivesIff | autogpt_platform/frontend/public/gtag.js:171-175 | a rejected update leaves the buffered bytes as they were if and only if each of them that was overwritten was overwritten with itself |
| Sha256Stream.OneByteThenRejected | autogpt_platform/frontend/public/gtag.js:171-175 | on a fresh object: after one byte and a rejected update of sixty-four others the object holds another byte than it was fed |
| Consent.Registry.Default | autogpt_platform/frontend/public/gtag.js:240-248 | a regional default replaces the stored one exactly when the specification says so |
| Consent.Registry.Declare | autogpt_platform/frontend/public/gtag.js:250 | the same for declarations |
| Consent.Registry.Implicit | autogpt_platform/frontend/public/gtag.js:251 | implicit consent, where a denial is final |
| Consent.LastForIsLast | autogpt_platform/frontend/public/gtag.js:241-243 | the last command that names a region is the one after which no other names it |
| Consent.LastMostSpecificWins | autogpt_platform/frontend/public/gtag.js:241-250 | in a known country, after any commands in any order, the stored default is that of the last command naming the subdivision, else the last naming the country, else the last without a region; and so is the declaration |
| Consent.OtherRegionHasNoEffect | autogpt_platform/frontend/public/gtag.js:241-243 | a default for another region, wherever it stands in the run, changes nothing |
| Consent.UnknownCountryKeepsDenial | autogpt_platform/frontend/public/gtag.js:242-243 | in an unknown country the default is denied if and only if some default was a denial |
| Consent.StateOfRun | autogpt_platform/frontend/public/gtag.js:252-256 | what is read after a run: the last update, else the default, else the declaration, else the implicit answer |
| Consent.OneCommandMore | autogpt_platform/frontend/public/gtag.js:240-256 | after any run, what one more command changes: only its own consent type, an update at once, a default without a value nothing |
| Consent.OwnRegionTakesEffect | autogpt_platform/frontend/public/gtag.js:240-250 | a default or declaration whose region names the subdivision, in letters of any case, takes effect at once, and only the word `granted` grants |
| Consent.EmptyRegionIsNone | autogpt_platform/frontend/public/gtag.js:240-250 | an empty region is none |
| Base64.GroupBits | autogpt_platform/frontend/public/gtag.js:47 | the encoder's shifts and masks cut three bytes into four six-bit numbers |
| Base64.UngroupBits | autogpt_platform/frontend/public/gtag.js:48 | the decoder's shifts and masks put them together again |
| Base64.DecodeUndoesEncode | autogpt_platform/frontend/public/gtag.js:47-48 | decoding gives the bytes back for every byte string, also when some or all trailing pads are gone and white space stands anywhere (section 5 of RFC 4648, with `.` as the pad) |
| Base64.RoundTrip | autogpt_platform/frontend/public/gtag.js:47-48 | the case without anything inserted, with and without the pads |
| Base64.Codec.Number | autogpt_platform/frontend/public/gtag.js:47 | the table sends each character of the alphabet to its position, and no other character anywhere |
| Base64.Codec.EncodeBytes | autogpt_platform/frontend/public/gtag.js:47 | the encoder's loop |
| Base64.Codec.DecodeText | autogpt_platform/frontend/public/gtag.js:48 | the decoder's loop, with the first unknown character as the error |
| Features.PackedBits | autogpt_platform/frontend/public/gtag.js:48 | bit `i` of the packed bytes is flag `i` |
| Features.ReportShowsRecorded | autogpt_platform/frontend/public/gtag.js:48 | after any recordings, decoding the report of a name gives a bit string whose bit `i` is set exactly when feature `i` was recorded under it |
| Features.ReportIsShortest | autogpt_platform/frontend/public/gtag.js:48 | a report holds no dot, and its last byte shows a feature that was recorded |
| Features.Recorder.PackFlags | autogpt_platform/frontend/public/gtag.js:48 | the loop that packs eight flags into a character |
| Features.Recorder.ReportFeatures | autogpt_platform/frontend/public/gtag.js:48 | the report, with its trailing dots removed |
| BurstLimiter.Limiter.Try | autogpt_platform/frontend/public/gtag.js:296 | one attempt: check against the ring, budget, stamp, silence |
| BurstLimiter.NoBurst | autogpt_platform/frontend/public/gtag.js:294-296 | with a clock that does not go back no 1000 ms window holds more than five sends, and at most 1000 are ever made |
| BurstLimiter.SentExactlyWhen | autogpt_platform/frontend/public/gtag.js:296 | an attempt is sent exactly when no attempt of its event was held back before, fewer than 1000 sends were made and fewer than five of them in the last 1000 ms |
| BurstLimiter.SilencedStaysSilent | autogpt_platform/frontend/public/gtag.js:296 | an event held back once is never sent again |
| IntCode.Encode | autogpt_platform/frontend/public/gtag.js:83 | the loop over groups of five bits, for every number, with the shift on signed 32-bit numbers |
| IntCode.EncodedIsReadIff | autogpt_platform/frontend/public/gtag.js:83 | what the code returns can be read back, whatever follows it, if and only if the number is below 2^31 |
| IntCode.ParseUndoesCode | autogpt_platform/frontend/public/gtag.js:83 | whatever text follows a code word, a reader recovers the number, the tag and the text |
| IntCode.CodeIsPrefixFree | autogpt_platform/frontend/public/gtag.js:83 | no code word begins another |
| IntCode.OneReading | autogpt_platform/frontend/public/gtag.js:83 | a text of code words can be cut into words in one way only |
| ConnectionManager.Connections.ConnectSocket | autogpt_platform/backend/backend/api/conn_manager.py:25-30 | the socket enters the active set and its user's set |
| ConnectionManager.Connections.DisconnectSocket | autogpt_platform/backend/backend/api/conn_manager.py:32-40 | the socket leaves the active set, every subscriber set and its user's set, which goes when empty |
| ConnectionManager.Connections.Receive | autogpt_platform/backend/backend/api/ws_api.py:256-321 | one turn of the message loop: the new indexes and the reply, including malformed frames, missing or invalid data and unprocessed methods; which channel each frame joins or leaves is stated by `ConnectionDelivery.OwnUpdateArrivesIff` and `AnswerIsTrue` |
| ConnectionManager.Connections.SendUpdate | autogpt_platform/backend/backend/api/conn_manager.py:70-103 | every subscriber of each channel of the update is sent to once, and the count is their number |
| ConnectionRuns.NotificationReachesUser | autogpt_platform/backend/backend/api/conn_manager.py:105-123 | in every run a notification goes to exactly the open connections that authenticated as its user |
| ConnectionRuns.IndexesFollowTheRun | autogpt_platform/backend/backend/api/ws_api.py:245-327 | in every run the subscription map, empty sets aside, is the relation of joined and not left, and the other indexes and the gauge are the open sessions |
| ConnectionRuns.ClosedIsGone | autogpt_platform/backend/backend/api/conn_manager.py:32-40 | a closed connection is in no index, and the others are where they were |
| ConnectionRuns.UpdateReachesSubscribers | autogpt_platform/backend/backend/api/conn_manager.py:70-103 | an update reaches exactly the sockets subscribed to its one or two distinct channels, and is counted once for each |
| ConnectionRuns.KeysDiffer | autogpt_platform/backend/backend/api/conn_manager.py:140-145 | the channels of one user never coincide across kinds or ids |
| ConnectionRuns.SubscriberOwnsChannel | autogpt_platform/backend/backend/api/ws_api.py:123-182 | every subscription is an open connection's, to a channel of the user it authenticated as |
| ConnectionRuns.ShareChannelIff | autogpt_platform/backend/backend/api/conn_manager.py:140-145 | two users have a channel in common if and only if one of their ids begins with the other followed by a vertical bar and `graph_exec#` or `graph#` |
| ConnectionRuns.PlainIsNotConfused | autogpt_platform/backend/backend/api/conn_manager.py:140-145 | ids free of vertical bars cannot be confused |
| ConnectionRuns.RecipientsAreTheUser | autogpt_platform/backend/backend/api/conn_manager.py:70-145 | in every run in which no connected id can be confused with the user of an update in that way, ids free of vertical bars among them, every recipient authenticated as that user |
| ConnectionRuns.AnotherUserIsReachedIff | autogpt_platform/backend/backend/api/conn_manager.py:70-145 | some run lets an update of one user reach a connection of another if and only if the other's id is not empty and the two can be confused in that way |
| ConnectionRuns.GraphSubscriptionStays | autogpt_platform/backend/backend/api/ws_api.py:185-215 | no frame ends a subscription to all executions of a graph |
| ConnectionDelivery.OwnUpdateArrivesIff | autogpt_platform/backend/backend/api/conn_manager.py:42-103 | told by the frames alone: in every run an open connection of a user gets an update of that user on the execution's channel exactly if it asked for the execution and has not dropped it since, and on the graph's channel exactly if it asked for the graph |
| ConnectionDelivery.UpdateArrivesIffDue | autogpt_platform/backend/backend/api/conn_manager.py:70-145 | in every run in which no connected id can be confused with the user of an update, it goes to exactly the connections and channels it is due on by that rule |
| ConnectionDelivery.SessionIffOpened | autogpt_platform/backend/backend/api/ws_api.py:245-327 | the open sessions are the first openings of a socket by a user, not closed since |
| ConnectionDelivery.AnswerTells | autogpt_platform/backend/backend/api/ws_api.py:123-321 | which frames get no answer, a success, and which error |
| ConnectionDelivery.AnswerIsTrue | autogpt_platform/backend/backend/api/ws_api.py:123-215 | in every run a success names the channel that the connection is, or is not, subscribed to from then on; without one nothing changes |
| ConnectionDelivery.ChannelsLeft | autogpt_platform/backend/backend/api/conn_manager.py:32-40 | unsubscribing leaves the channel in the map exactly if somebody is still subscribed; closing leaves all channels in it |
| CompletionTracker.Tracker.Complete | autogpt_platform/frontend/public/gtag.js:581 | completing fires the waiting callbacks in order, once |
| CompletionTracker.Tracker.Report | autogpt_platform/frontend/public/gtag.js:584 | the function a registration returns works once |
| CompletionTracker.FiredOnceWhenEnded | autogpt_platform/frontend/public/gtag.js:581-584 | in every run all callbacks added so far have been fired once each and in order if the timeout came or the tracker was settled at some moment, and none otherwise |
| CompletionTracker.SettledHasFired | autogpt_platform/frontend/public/gtag.js:584 | once sealed with all reported every callback has been fired, and later ones fire at once |
| CompletionTracker.MissingReportHoldsBack | autogpt_platform/frontend/public/gtag.js:584 | a missing report keeps the callbacks back until the timeout |
| OnceTag.Tag.Invoke | autogpt_platform/frontend/public/gtag.js:602 | a call waits with the body running, or is answered at once |
| OnceTag.Tag.End | autogpt_platform/frontend/public/gtag.js:602 | an outcome answers all that waited |
| OnceTag.BodyRunsOnce | autogpt_platform/frontend/public/gtag.js:601-602 | the body runs once, with the first call |
| OnceTag.OneOutcomeOneCallback | autogpt_platform/frontend/public/gtag.js:602 | a body that reports one outcome gives every call exactly one callback, of that kind, in order |
| OnceTag.OneCallbackIffOneOutcome | autogpt_platform/frontend/public/gtag.js:602 | each of distinct callers has exactly one callback if and only if there was exactly one outcome |
| OnceTag.CallbacksAreTold | autogpt_platform/frontend/public/gtag.js:602 | in every run, with any number of outcomes, the callbacks are those the events tell: each outcome answers all early callers in order, and a late caller gets the latest outcome |
| AutoPilot.Execute | autogpt_platform/backend/backend/blocks/autopilot.py:272-334 | an execution ends for every tree of nested ones, infinite ones too, and leaves depth, limit and inherited permissions as they were on every way out |
| AutoPilot.Task.ExecuteCopilot | autogpt_platform/backend/backend/blocks/autopilot.py:272-334 | the same with context variables that are set and reset |
| AutoPilot.DepthStaysWithinEveryLimit | autogpt_platform/backend/backend/blocks/autopilot.py:415-445 | the number of live executions never exceeds the smallest limit on the chain, and each runs under its permissions merged with its callers' |
| AutoPilot.LetInExactlyWithinLimits | autogpt_platform/backend/backend/blocks/autopilot.py:426-433 | an execution is let in if and only if the chain with it is within everybody's limit |
| AutoPilot.NestedRunInOrder | autogpt_platform/backend/backend/blocks/autopilot.py:272-334 | an execution that is let in runs all its nested executions in order, or those up to the first cancelled one, and ends cancelled or as its copilot does |
| AutoPilot.VisitedIff | autogpt_platform/backend/backend/blocks/autopilot.py:272-445 | if no copilot is cancelled, an execution of the tree is let in exactly if the chain down to it is within every limit and each execution above it starts the next |
| AutoPilot.BlockNeedsWholePath | autogpt_platform/backend/backend/blocks/autopilot.py:487-520 | a block may run in a nested execution exactly if the filters of it and all its callers let it pass |
| AutoPilot.ToolsAreSharedIff | autogpt_platform/backend/backend/blocks/autopilot.py:487-520 | in every tree the tools of an execution are those that it and all its callers allow, if and only if there is such a tool or no merge took place |
| Permissions.MergeIntersectsIff | autogpt_platform/backend/backend/copilot/permissions.py:230-251 | the tools of a merge are the intersection if and only if it is not empty |
| Permissions.OneMoreName | autogpt_platform/backend/backend/copilot/permissions.py:184-228 | one more name in a list that is not empty: a blacklist lets pass all it did but that, a whitelist also that |
| Permissions.FirstName | autogpt_platform/backend/backend/copilot/permissions.py:184-228 | the first name in an empty list: a blacklist lets all others pass, a whitelist no other |
| Permissions.MergeNarrowsIff | autogpt_platform/backend/backend/copilot/permissions.py:230-251 | a nested execution has no tool its parent lacks if and only if they share a tool or the parent had all |
| Permissions.DisjointWhitelistsAllowAll | autogpt_platform/backend/backend/copilot/permissions.py:184-251 | two whitelists without a common tool merge to all tools |
| Permissions.CeilingIsSharedIff | autogpt_platform/backend/backend/copilot/permissions.py:230-251 | at the end of a nested chain exactly the shared tools are allowed, if and only if there is one |
| Permissions.BlockNeedsWholeChain | autogpt_platform/backend/backend/copilot/permissions.py:204-251 | a block is allowed at the end of a chain exactly if every filter of the chain lets it pass |

## Left out

- Command queue: forced flushes, the merging of configuration values, callbacks run after a command,
  and handlers that call back into the queue.
- Heartbeat: delays and life times; a timer or timeout is a step that may come at any time.
- Keyed mutex: `timeout=None`, which would give leases that never end; setting the lease and storing its
  token in the lock object, which are one step here; waiting between attempts, the cache's size limit (an
  entry may go at any time), `release_all_locks`, which repeats the modelled release for each lock, and
  lock objects of several keys.
- Rate limiter: the connection set-up, and clocks that differ between servers.
- BlockDocFiles.DocTree.Write: the overview and summary pages and the file titles are parameters of the
  model.
- BlockDocFiles.DocTree.Check: the overview and summary pages are parameters, and the report of which
  block differs is not modelled.
- Documentation generator: loading blocks, type names, titles, anchors and file access.
- `\w` in section names is modelled for ASCII; other word characters are not.
- Schema flattening: reference resolution by jsonref, the cache, objects shared between places in the
  tree, which the update in place would change in both, and update from lists of pairs or empty text.
- Schema meaning: keywords other than the applicators shown are an arbitrary predicate of keyword,
  argument and value; keywords that look at neighbours other than `properties` are not covered.
- SHA-256: there is no closing step in the file, so the padding and final digest are not modelled.
- Base64 of character codes above 255, for which the encoder has no symbol.
- Burst limiter: the conditions under which an attempt is made at all, and the request that is sent.
- Consent: waiting for an update, the quiet flag and listeners, container-scoped defaults, delegation,
  and upper-casing outside ASCII.
- Once-per-load tags: a body that reports its outcome before the call returns is the same as one that
  reports right after it; setup and teardown tags are not modelled.
- WebSocket: authentication, ways out of the loop other than a disconnect, the payloads, and a set of
  subscribers that changes while an update is being sent.
- AutoPilot: sessions, prompts, outputs and token counts; validation of block identifiers; how an
  identifier matches a block (a parameter); tools as a list rather than a set of names.
- The CLI, the FastAPI wiring, third-party blocks, and the rest of the vendored script.
