# Proved behaviour of the convert-search service

A Dafny model of the parts of `convert_search_ai` whose correctness spans many functions, many
steps or many threads, with proofs. `dafny verify dfyconfig.toml` checks all of it.

Each component keeps the form its source has. Code that changes objects or loops over them is a
class or a method with loops, proved equal to a specification function on values; the properties
of whole runs are then lemmas about that function. Threads, crashes, timeouts and messages in
flight are state machines: an action is one critical section or one unlocked effect, a run is any
sequence of enabled actions, and the lemmas speak of every run.

| Module | Component |
|---|---|
| `Text`, `Wrappers`, `JsonTree` | Python strings, absent values and failures, parsed trees |
| `Renditions` | the names of hidden children, written and read back |
| `MediaJobs`, `MediaJobRuns` | the job store: dict loops against set-oriented SQL; its state machine over all runs |
| `MediaPublish`, `MediaPublishRuns`, `MediaPublishHollow`, `MediaPublishAlone`, `MediaWorker` | publishing media: interleaved workers with crashes; one worker, alone |
| `Consent`, `ConsentRelay` | asking the user before a tool runs, in one process and in a fleet |
| `Chunking`, `Packing`, `ChunkBounds`, `ChunkShape`, `Indexing` | from Markdown to stored vectors |
| `Windows`, `Locate`, `ExtractCheck`, `ExtractRun`, `FolderWalk` | extracting values with evidence |
| `Ingest` | the event consumer, with crashes anywhere |
| `PromptSets`, `PromptSetStore`, `PromptSetService` | definitions, their file form, their history |
| `PromptSetReading`, `PromptSetFiles`, `PromptSetCalls` | what a tree, a file and a call must say to be accepted, and what comes of it |
| `PromptSetBodies`, `PromptSetRaces` | what definitions are stored after any calls; calls that overlap |
| `Permissions`, `Revocation` | two caches under interleaving |
| `ScopeWalk` | the folders below a search scope |

## What the code does not do

Where a promise does not hold of the code, the model keeps the code, a lemma gives the failing
case, and another says exactly when the promise holds:

- Chunks respect the target for every document exactly when the target is positive, the overlap at
  least -2, and either the overlap is not positive or the target is at least 4
  (`ChunkBounds.ChunkBoundIff`).
- A success can name an empty child. A worker that has cleared its name ends so exactly when the name
  is then taken, by empty children alone (`MediaPublishHollow.HollowIff`). Three whole runs get there: two
  live workers on one job (`MediaPublishHollow.TwoWorkersHollow`), a failed stat
  (`MediaPublishHollow.StatFailsHollow`), and any two versions that sanitise to one name
  (`MediaPublishHollow.CollisionHollow`; such versions exist, `MediaPublishHollow.CollisionHappens`). For a worker
  alone, `MediaWorker.PublishEncoded` says exactly when a failed stat does it. The protocol is proved without
  these three.
- A shutdown of the consent broker does not settle every answer: a reply that comes after it, before
  the waiter withdraws its slot, still turns into a yes (`Consent.YesAfterShutdown`); exactly which calls
  say yes across a shutdown is `Consent.YesAcrossShutdown`.
- Two answers to one consent question can both be told "delivered", even one that approves and one that
  denies (`ConsentRelay.ApprovedAndDenied`, a run from the start); the broker still hears one. Never more
  than two are, and two exactly when one was delivered where the request waits and the other claimed the
  record (`ConsentRelay.AtMostTwoYeses`). An answer given elsewhere is told so exactly when it finds the
  owner's record and somebody hears its message (`ConsentRelay.RelayedYesIff`).
- The ingestor can go on to new events with old ones pending, and acknowledge them ahead of these: when a read of the
  pending list times out, when the drain at a restart ends by an exception of a read or of an acknowledgement (which
  the worker survives), and when the server gives out new events and the reply times out. Nothing is lost. The order
  holds at every point of a run exactly when no such step leaves anything pending (`Ingest.InOrderIff`); the next new
  event breaks it exactly when the core accepts that event (`Ingest.StrandingBreaksOrderIff`); runs from the start reach
  each of these (`Ingest.StrandingsHappen`).
- An invalidation does not reach a permission check under way (`Permissions.StaleYes`, a run from the
  start). Every later yes is newer than the news, whatever the core says, exactly when no check that
  was told yes is under way as it comes (`Permissions.NewsHoldsIffQuiet`).
- The revocation cache exceeds a maximum below one (`Revocation.NoRoomIsExceeded`).
- A definition imported beside a set of its name or slug can be stored under a name that is not in canonical form,
  exactly when its own name is one character short of the limit (`PromptSetService.ImportedNameTrimmed`). After any
  calls every other stored definition is canonical (`PromptSetBodies.StoredCanonicalIff`), so a file exported from the
  store comes back as it was exactly when no name in it ends in a blank (`PromptSetBodies.StoredFileImportsIff`).
- A call reads the open draft in one transaction and writes in another, so overlapping calls can break a set's history:
  an older definition becomes current again below a published one (`PromptSetRaces.OvertakenRun`), or a revision that
  another has followed is rewritten (`PromptSetRaces.RewrittenRun`). The history survives exactly when no caller
  changes a draft that another revision has followed since it was read (`PromptSetRaces.HistorySurvivesIff`,
  `PromptSetRaces.PassedIffAdded`).

## Model

| member | source | states |
|---|---|---|
| Renditions.ParseIffName | src/convert_search_ai/renditions.py:107-122 | a name parses to (v, f, e) exactly when it is `v-f.e` with a non-empty version, a recognised fmt and a non-empty extension without a dot: no version, however many dashes it has, is cut short |
| Renditions.NameRoundTrip | src/convert_search_ai/renditions.py:98-122 | what the writer names, the parser reads back as the sanitised version, fmt and extension |
| Renditions.NameInjective | src/convert_search_ai/renditions.py:98-104 | two renditions share a name exactly when sanitised version, fmt and extension agree |
| Renditions.SafeVersionFixed | src/convert_search_ai/renditions.py:98-99 | sanitising settles in one step, and leaves safe versions alone |
| Renditions.SafeVersionIs | src/convert_search_ai/renditions.py:98-99 | what a version is in a name: stripped, "0" if nothing is left, every character but letters, figures and three marks an underscore |
| Renditions.SafeVersionsCollide | src/convert_search_ai/renditions.py:98-99 | distinct versions can name the same child |
| Renditions.ExtractPdfNameIsKnown | src/convert_search_ai/renditions.py:66-84 | the fmt of every prompt set's marked-up PDF is one the parser recognises |
| Renditions.EveryFormatParses | src/convert_search_ai/renditions.py:41-122 | every format a producer writes, the thirteen plain ones and those of marked-up PDFs, is read back from the name |
| Renditions.KnownFmtIff | src/convert_search_ai/renditions.py:41-67 | the recognised formats: thirteen, and the family of marked-up PDFs |
| Renditions.KnownFmtLetters | src/convert_search_ai/renditions.py:41-64 | no recognised fmt holds a dash, and none could be a group of a UUID |
| Renditions.SidecarNeverParses | src/convert_search_ai/renditions.py:87-122 | audience sidecars are never taken for renditions, so never pruned |
| Renditions.NoDashNeverParses | src/convert_search_ai/renditions.py:107-122 | nor is any name without a dash |
| MediaJobs.MemoryMediaJobStore.Request | src/convert_search_ai/media_jobs.py:274-290 | the scan and the restart do what INSERT ON CONFLICT and the restarting UPDATE do; the job returned is the row of its key |
| MediaJobs.MemoryMediaJobStore.Claim | src/convert_search_ai/media_jobs.py:292-302 | the job claimed is a queued one with the least request time, a row the SELECT may return; nothing else changes |
| MediaJobs.MemoryMediaJobStore.Heartbeat | src/convert_search_ai/media_jobs.py:304-311 | the row update of the SQL: alive now, the larger of the two percentages, every other column and row as before; the status returned is that of the row, or cancelled where there is none |
| MediaJobs.MemoryMediaJobStore.Finish | src/convert_search_ai/media_jobs.py:313-323 | the conditional UPDATE: only a running job takes an outcome, with the reported facts |
| MediaJobs.MemoryMediaJobStore.RequeueStale | src/convert_search_ai/media_jobs.py:325-339 | one pass of the loop is the fail-then-requeue pair of statements; the uids returned are those of the two RETURNING clauses |
| MediaJobs.MemoryMediaJobStore.Cancel | src/convert_search_ai/media_jobs.py:341-350 | the UPDATE of the file's unfinished jobs, and the uids it returns |
| MediaJobs.SweepIsTwoStatements | src/convert_search_ai/media_jobs.py:193-210 | failing first and requeueing second touches no row twice: one pass per row does the same |
| MediaJobs.CancelIsOnePass | src/convert_search_ai/media_jobs.py:212-222 | cancelling by one pass per row is the UPDATE |
| MediaJobs.RowsMap | src/convert_search_ai/media_jobs.py:325-350 | a pass over the dict is an update of every row |
| MediaJobs.UidsWhereReturned | src/convert_search_ai/media_jobs.py:193-222 | the uids a loop collects are those an UPDATE ... RETURNING hands back, each once |
| MediaJobs.RequestSets | src/convert_search_ai/media_jobs.py:110-142 | a request, column by column: a new row, a restarted one, or the table as it was; no other row changes |
| MediaJobs.ClaimSets | src/convert_search_ai/media_jobs.py:144-155 | a claim: running, started and alive now, one attempt more, no progress, every other column and row as before |
| MediaJobs.HeartbeatSets | src/convert_search_ai/media_jobs.py:157-167 | a heartbeat: alive now, the larger of the two percentages, every other column and row as before |
| MediaJobs.FinishSets | src/convert_search_ai/media_jobs.py:169-191 | an outcome: only a running row, its status, its end, what was reported and nothing else; progress 100 with a success alone |
| MediaJobs.SweepSets | src/convert_search_ai/media_jobs.py:193-210 | a sweep: exactly the running rows last alive before the cutoff fail or wait again, by their attempts |
| MediaJobs.CancelSets | src/convert_search_ai/media_jobs.py:212-222 | a cancellation: exactly the unfinished rows of the file, their status, end and detail |
| MediaJobRuns.RunKeepsInv | src/convert_search_ai/media_jobs.py:110-222 | over every run: one job per (file, version, profile), queued implies attempts below the cap, running implies 1 to the cap, `finished_at` set exactly in terminal states |
| MediaJobRuns.RowWise | src/convert_search_ai/media_jobs.py:110-222 | every operation acts on each existing job by itself |
| MediaJobRuns.StepFollowsEdge | src/convert_search_ai/media_jobs.py:36-39 | the only moves between states, and the operation that makes each |
| MediaJobRuns.EdgeHappens | src/convert_search_ai/media_jobs.py:36-39 | and each of these moves happens, the one back to the queue only where more than one attempt is allowed |
| MediaJobRuns.SucceededIsForever | src/convert_search_ai/media_jobs.py:169-210 | a succeeded or skipped job is never picked up, restarted, failed or rewritten again |
| MediaJobRuns.EndedUntilRequested | src/convert_search_ai/media_jobs.py:110-142 | a failed or cancelled job leaves its state only through a request |
| MediaJobRuns.ClaimsPerRequest | src/convert_search_ai/media_jobs.py:193-210 | between two requests a job is claimed at most `max_attempts` times |
| MediaJobRuns.SweepTakesTheSilent | src/convert_search_ai/media_jobs.py:157-210 | over every run: a sweep takes a running job exactly when its last claim or heartbeat is older than the cutoff; else it leaves it alone, column for column |
| MediaJobRuns.ProgressFallsIff | src/convert_search_ai/media_jobs.py:157-191 | exactly when progress falls |
| MediaJobRuns.ProgressWithinAttempt | src/convert_search_ai/media_jobs.py:157-167 | with reports of at most 100 percent, progress never falls within an attempt |
| MediaPublish.DoKeepsInv | src/convert_search_ai/media_worker.py:139-322 | every step of every worker, job operation, crash and ingest write keeps the protocol's invariant |
| MediaPublish.Profiles | src/convert_search_ai/media_encode.py:105-111 | the profiles, the format each is published as, and which of them links wait for |
| MediaPublish.ClearOneKeeps | src/convert_search_ai/media_worker.py:234-258 | looking at one same-named child and removing it if empty keeps the invariant |
| MediaPublish.PassOverKeeps | src/convert_search_ai/media_worker.py:248-253 | so does leaving one that holds something because its size could not be asked for |
| MediaPublish.ListsKeep | src/convert_search_ai/media_worker.py:234-258 | listing same-named children, and the writer's own listing, keep it |
| MediaPublish.TouchKeeps | src/convert_search_ai/renditions.py:147-172 | making an empty child keeps it, a crash right after included |
| MediaPublish.PutKeeps | src/convert_search_ai/renditions.py:147-172 | giving a child its content keeps it |
| MediaPublish.EndKeeps | src/convert_search_ai/media_worker.py:260-287 | recording an outcome, or finding the job no longer running, keeps it |
| MediaPublish.ListOlderKeeps | src/convert_search_ai/media_worker.py:289-322 | what a retirement lists is spare: a newer primary rendition has succeeded |
| MediaPublish.RetireOneKeeps | src/convert_search_ai/media_worker.py:289-322 | removing one child of an older version keeps it, whatever happened since it was listed |
| MediaPublish.StoreOpKeeps | src/convert_search_ai/media_jobs.py:110-222 | every operation of the job store keeps it |
| MediaPublishRuns.CrashSafePublish | src/convert_search_ai/media_worker.py:207-256 | over every run with crashes: every child of a succeeded job's file under the name it reports has content, and there is one, unless a newer version superseded it; and no two children of a file share the name of a published rendition |
| MediaPublishRuns.NeverDark | src/convert_search_ai/media_worker.py:286-322 | once a primary job of version v succeeded, every later state of every run has a primary rendition with content of version v or newer |
| MediaPublishRuns.ProgressNeverFalls | src/convert_search_ai/media_worker.py:180-194 | over every run, whoever reports: a job's progress never falls, and stays at most 100, until the job is claimed or requested again |
| MediaPublishHollow.HollowIff | src/convert_search_ai/renditions.py:147-172 | a worker that has cleared its name reports a success with nothing stored under it exactly when the name is taken by empty children alone |
| MediaPublishHollow.TwoWorkersHollow | src/convert_search_ai/media_worker.py:207-232 | for every job, a run from the start in which a worker taken for dead is not, and its job's second worker reports an empty child |
| MediaPublishHollow.CollisionHollow | src/convert_search_ai/renditions.py:98-172 | for every two versions of a file that sanitise to one name, a run from the start in which one job reports the other's empty child |
| MediaPublishHollow.CollisionHappens | src/convert_search_ai/renditions.py:98-172 | such a run for every file, with the versions `1 0` and `1_0` |
| MediaPublishHollow.StatFailsHollow | src/convert_search_ai/media_worker.py:234-258 | for every job, a run from the start in which a crash leaves an empty child, the next attempt cannot ask for its size, and reports it |
| MediaPublishAlone.UndisturbedPublishSucceeds | src/convert_search_ai/media_worker.py:139-256 | a publish left alone, from request to outcome, is a run of the protocol and ends in a success whose named child holds the content |
| MediaWorker.WriteRenditions | src/convert_search_ai/renditions.py:147-172 | writes exactly the requested names that were not there, touching nothing else |
| MediaWorker.PruneOldVersions | src/convert_search_ai/renditions.py:174-199 | removes exactly the unpublished renditions of other versions, save those the core refuses to remove |
| MediaWorker.ClearEmptyChild | src/convert_search_ai/media_worker.py:234-258 | removes exactly the same-named children known to be without content: those it cannot ask about stay |
| MediaWorker.ClearingIsARun | src/convert_search_ai/media_worker.py:246-258 | what the method leaves is what a run of the protocol's steps leaves |
| MediaWorker.RetireSuperseded | src/convert_search_ai/media_worker.py:289-322 | older published copies go, all of them, exactly when every job of the version is over and its primary rendition succeeded |
| MediaWorker.RemoveOlder | src/convert_search_ai/media_worker.py:305-322 | removes exactly the published renditions of earlier versions |
| MediaWorker.RetireRule | src/convert_search_ai/media_worker.py:289-322 | when a version retires its elders, said of the rows: all over, and a primary one succeeded |
| MediaWorker.OlderPublishedAre | src/convert_search_ai/media_worker.py:305-322 | which children are older published copies, said of their names |
| MediaWorker.RetiringIsARun | src/convert_search_ai/media_worker.py:305-322 | what the removal loop leaves is what a run of the steps of the protocol leaves |
| MediaWorker.EndJob | src/convert_search_ai/media_worker.py:260-287 | records the outcome of a running job and retires; a job cancelled meanwhile keeps its record |
| MediaWorker.FinishNamed | src/convert_search_ai/media_worker.py:207-232 | a success leaves the row naming the child, with all that was reported; a job no longer running keeps its row |
| MediaWorker.PublishEncoded | src/convert_search_ai/media_worker.py:207-256 | after clear, write and finish, the named child of a success holds content, exactly unless the name was taken by empty children alone and one of them could not be asked about |
| MediaWorker.EncodeAndWrite | src/convert_search_ai/media_worker.py:180-256 | one job after its encode, case by case and column by column: a skip is recorded as skipped and a failure as failed, each with its reason; an erased file as cancelled; a success names a child that holds content; a job no longer running keeps its record; any other outcome than success stores nothing new |
| MediaWorker.BeatAndPublish | src/convert_search_ai/media_worker.py:207-232 | the last look for a cancellation writes the heartbeat; nothing is published of a cancelled job |
| Consent.ConsentBroker.Open | src/convert_search_ai/consent.py:62-67 | a slot is made exactly when the broker is open |
| Consent.ConsentBroker.Withdraw | src/convert_search_ai/consent.py:81-82 | the request id leads nowhere any more; slots keep what they hold |
| Consent.ConsentBroker.Conclude | src/convert_search_ai/consent.py:83-87 | the answer is the slot's decision unless the wait timed out, and the tool is remembered exactly on "approve and remember" |
| Consent.ConsentBroker.Resolve | src/convert_search_ai/consent.py:90-98 | writes and signals the slot the id leads to, or changes nothing |
| Consent.ConsentBroker.Shutdown | src/convert_search_ai/consent.py:100-106 | closes, and signals every pending slot, changing no decision |
| Consent.RunKeepsInv | src/convert_search_ai/consent.py:56-106 | the invariant of every interleaving of requests, replies, timeouts and shutdowns |
| Consent.YesIff | src/convert_search_ai/consent.py:56-99 | `request` says yes exactly when the tool was remembered as it asked, or the wait ended by a signal and the last answer before the withdrawal approved |
| Consent.RememberedIsEarned | src/convert_search_ai/consent.py:60-99 | a tool is remembered exactly when it was brought along, or a call for it was woken and last answered "approve and remember"; only remembered tools skip the question |
| Consent.RememberedIsNotAsked | src/convert_search_ai/consent.py:56-67 | a call for a remembered tool is answered yes at once and changes nothing else; any other asks |
| Consent.ShutdownReleases | src/convert_search_ai/consent.py:100-106 | after a shutdown no slot opens, every pending slot is signalled, and, with ids used once, everyone waiting can go on |
| Consent.YesAcrossShutdown | src/convert_search_ai/consent.py:56-106 | where the broker closed, a call for a tool not remembered says yes exactly when it was woken and its last answer before the withdrawal approved a slot opened before the closing |
| Consent.YesAfterShutdown | src/convert_search_ai/consent.py:81-106 | a run in which a reply after the shutdown is a yes |
| ConsentRelay.Redis.Claim | src/convert_search_ai/headless/consent_relay.py:68-70 | compare and delete, atomically |
| ConsentRelay.ConsentRelay.Register | src/convert_search_ai/headless/consent_relay.py:81-94 | the local entry, and the record when the shared store is reachable |
| ConsentRelay.ConsentRelay.ForgetRun | src/convert_search_ai/headless/consent_relay.py:96-101 | exactly the run's entries go, here and in the shared store |
| ConsentRelay.ConsentRelay.Deliver | src/convert_search_ai/headless/consent_relay.py:111-120 | where the request waits for the owner who answers, the answer is yes, the broker hears this very answer, whatever it decides, and the entry goes; in every other case no, and nothing changes |
| ConsentRelay.ConsentRelay.Answer | src/convert_search_ai/headless/consent_relay.py:127-150 | where the request waits here, delivered or refused by its owner alone; elsewhere relayed exactly by claiming the record of that owner with the store reachable |
| ConsentRelay.RunKeepsInv | src/convert_search_ai/headless/consent_relay.py:81-189 | the invariant of every interleaving over any number of instances |
| ConsentRelay.KeepsOnePlace | src/convert_search_ai/headless/consent_relay.py:111-120 | a registration waits in one place, or is being delivered once, or was delivered once |
| ConsentRelay.KeepsOneRecord | src/convert_search_ai/headless/consent_relay.py:81-146 | its record is unwritten, there, or claimed, never two of these |
| ConsentRelay.DeliveredOnceToTheOwner | src/convert_search_ai/headless/consent_relay.py:81-189 | `broker.resolve` runs at most once for a registration (for a request id, when ids are used once), with an answer its registered owner submitted |
| ConsentRelay.AtMostTwoYeses | src/convert_search_ai/headless/consent_relay.py:127-150 | every answer told "yes" is so for exactly one registration, of its request and owner; at most two are for one registration, and two exactly when one was delivered and another won the claim |
| ConsentRelay.RelayedYesIff | src/convert_search_ai/headless/consent_relay.py:127-150 | an answer given where the request does not wait is told "yes" exactly when it claims the owner's record with the store reachable and its message is heard |
| ConsentRelay.DeliveredYesIff | src/convert_search_ai/headless/consent_relay.py:111-130 | one given where it waits is told "yes" exactly when the owner's entry is still there as it is taken, and the broker is called |
| ConsentRelay.OwnersAlone | src/convert_search_ai/headless/consent_relay.py:111-150 | whose an answer must be does not depend on what it says, here and in the shared store |
| ConsentRelay.LocalNo | src/convert_search_ai/headless/consent_relay.py:127-130 | an answer by another than the owner, where the request waits, is told no and changes nothing |
| ConsentRelay.RelayedIsDelivered | src/convert_search_ai/headless/consent_relay.py:170-189 | a message that reaches the instance where the request waits can always be delivered, and the broker hears the very answer submitted |
| ConsentRelay.TwoYeses | src/convert_search_ai/headless/consent_relay.py:111-150 | from any state in which a request waits and its record is there: two answers, the same or opposed, can both be told "yes" |
| ConsentRelay.ApprovedAndDenied | src/convert_search_ai/headless/consent_relay.py:81-150 | a run from the start that reaches it with an approval and a denial |
| Chunking.SplitOversizedLoop | src/convert_search_ai/chunking.py:51-78 | the loops over lines and cuts compute the recursive splitting |
| Chunking.SplitOversizedIs | src/convert_search_ai/chunking.py:51-78 | pieces of at most the limit, none blank, that hold the block's non-blank characters in order |
| Chunking.SplitBlanksKeepInk | src/convert_search_ai/chunking.py:39-39 | splitting at blank lines loses only whitespace |
| Chunking.BlocksAre | src/convert_search_ai/chunking.py:81-98 | every block is stripped, non-empty, within the block limit, and together they hold the document |
| ChunkShape.LinesAre | src/convert_search_ai/chunking.py:51-58 | the lines of a block: together the block, each ending at its first line break |
| ChunkShape.LinesStayWhole | src/convert_search_ai/chunking.py:51-78 | a line that fits is cut nowhere: it is a line of one piece |
| ChunkShape.PiecesAreFull | src/convert_search_ai/chunking.py:51-78 | an oversized block is cut as late as its lines allow |
| ChunkShape.ParagraphsAre | src/convert_search_ai/chunking.py:39-39 | the paragraphs and the blank lines between them spell out the document, and no paragraph holds a blank line |
| ChunkShape.ParagraphIsOneBlock | src/convert_search_ai/chunking.py:81-98 | a paragraph that fits beside the overlap is one block |
| Packing.SplitBlocks | src/convert_search_ai/chunking.py:81-98 | the loop over paragraphs computes the blocks |
| Packing.ChunkMarkdown | src/convert_search_ai/chunking.py:81-113 | the packing loop computes the chunks of the specification |
| ChunkShape.TailIs | src/convert_search_ai/chunking.py:104-107 | the tail carried over: the last characters, from the first line break in them on |
| ChunkShape.ChunksArePacked | src/convert_search_ai/chunking.py:92-113 | all blocks in order, each in one chunk, block after block into the same chunk exactly as long as they fit |
| ChunkBounds.ChunksConserve | src/convert_search_ai/chunking.py:81-113 | every chunk is a tail of at most `overlap` characters of the one before, then new text; the new texts hold exactly the document's non-blank characters in order |
| ChunkBounds.DefaultChunksFit | src/convert_search_ai/chunking.py:81-113 | with the default settings every chunk has at most 1200 characters |
| ChunkBounds.FitsIsEnough | src/convert_search_ai/chunking.py:81-113 | the settings under which every chunk of every document fits |
| ChunkBounds.ChunkBoundIff | src/convert_search_ai/chunking.py:81-113 | every chunk of every document is within the target exactly for those settings |
| Indexing.FitGroups | src/convert_search_ai/indexing.py:193-244 | each text's stored fragments cover it in order, at most two to the number of halvings left, each with the vector the provider gave for it; only what was refused alone after every halving is lost |
| Indexing.FitRaises | src/convert_search_ai/indexing.py:204-222 | fitting fails only when the provider failed or refused a single text as too many |
| Indexing.FitAtOnce | src/convert_search_ai/indexing.py:193-212 | texts the provider takes are stored whole after one call, each with its own vector; an outright failure is raised |
| Indexing.TruncateGroup | src/convert_search_ai/indexing.py:223-240 | the last resort keeps the first characters or gives the fragment up, and nothing else |
| Indexing.TruncateAt400 | src/convert_search_ai/indexing.py:223-240 | how many characters the last resort keeps, and when it gives the fragment up |
| Indexing.HalvesGroup | src/convert_search_ai/indexing.py:241-244 | the fragments of two halves are fragments of the whole |
| Indexing.Indexer.Index | src/convert_search_ai/indexing.py:148-174 | the batch loop stores what fitting all batches yields, with ordinals from 0; an error leaves the stored chunks as they were |
| Indexing.BatchGroups | src/convert_search_ai/indexing.py:163-171 | batching changes neither the order nor the pairing |
| Indexing.BatchesTakenWhole | src/convert_search_ai/indexing.py:163-171 | when no batch is refused every kept chunk is stored whole, with one call for each batch |
| Indexing.Bounded | src/convert_search_ai/indexing.py:115-140 | a first part of the chunks worth embedding: all of them, or as many as the cap; which are worth it is said by the next three rows |
| Indexing.OrdinaryIsKept | src/convert_search_ai/indexing.py:71-140 | a chunk of fewer than 200 characters, or with five different ones besides blanks, is embedded unless the cap is reached |
| Indexing.MonotonousIsDropped | src/convert_search_ai/indexing.py:71-140 | a chunk of 200 characters or more, with at most four different ones besides blanks, is not |
| Indexing.OrdinaryAllKept | src/convert_search_ai/indexing.py:71-140 | so ordinary chunks within the cap are all embedded |
| Indexing.BoundedKeepsFirst | src/convert_search_ai/indexing.py:115-140 | each chunk kept stands in the document, once and in order, and none is degenerate; another is left out only when the cap is reached, and comes after all that are kept |
| Indexing.IndexCovers | src/convert_search_ai/indexing.py:148-174 | for any provider: the fragments cover the kept chunks in order, each chunk in at most 64 stored pieces, and what is given up is at most 19 characters at a time |
| Indexing.IndexLosesNothing | src/convert_search_ai/indexing.py:148-244 | with a provider that takes any single text of at most 19 characters, the stored texts in order spell out exactly the kept chunks, ordinals are 0 to n-1, and each has its own vector |
| Indexing.OrdinaryDocumentIsIndexed | src/convert_search_ai/indexing.py:71-244 | of a document of ordinary chunks below the cap, what is stored spells out all of its chunks |
| Windows.Windows | src/convert_search_ai/headless/extract.py:217-233 | the loop computes the windows of the specification |
| Windows.SpansCover | src/convert_search_ai/headless/extract.py:217-233 | non-empty windows of at most `size`, end to end, each starting exactly the overlap before the end of the last: the guard `start + 1` is never what decides |
| Windows.EndsAtLineBreak | src/convert_search_ai/headless/extract.py:217-233 | a window that is not the last ends at the last line break of its second half, or is full |
| Windows.OverlapIs | src/convert_search_ai/headless/extract.py:221-221 | the overlap: a tenth of the size, at most 2000 |
| Windows.WindowsHoldEverything | src/convert_search_ai/headless/extract.py:217-233 | they run from start to end without a gap, every stretch no longer than the overlap lies in one of them, and their number is bounded by the stride |
| Windows.StartsAdvance | src/convert_search_ai/headless/extract.py:217-233 | the i-th window starts at least i strides in |
| Locate.SepIs | src/convert_search_ai/headless/extract.py:255-255 | what separates words: blanks, and eight marks |
| Locate.WordsIff | src/convert_search_ai/headless/extract.py:262-262 | the words of a quote are its longest stretches without separators, all of them, in order |
| Locate.FitsIsHolds | src/convert_search_ai/headless/extract.py:255-267 | what the pattern matches are exactly the stretches with the quote's words in order, up to case, beginning and ending with a word |
| Locate.MatchIsFits | src/convert_search_ai/headless/extract.py:265-267 | greedy matching finds a match exactly when there is one, and it is the only one at its place |
| Locate.LocateIff | src/convert_search_ai/headless/extract.py:258-267 | a quote is located exactly when it has two characters to go by and the text holds its words somewhere, and at the first such place |
| Locate.LiteralIsLocated | src/convert_search_ai/headless/extract.py:258-267 | every quote copied literally, with two characters to go by, is located |
| Locate.SearchFindsFirst | src/convert_search_ai/headless/extract.py:266-267 | the search finds the first match |
| ExtractCheck.Check | src/convert_search_ai/headless/extract.py:274-314 | the loop keeps of each field what the field's entry deserves, and collects all problems in order |
| ExtractCheck.AnswerSays | src/convert_search_ai/headless/extract.py:274-314 | what is kept of each field of a reply: the value, quote and unit it says, at the place of the quote; dropped without a located quote; nothing where it claims none or breaks its schema |
| ExtractCheck.ProblemsAre | src/convert_search_ai/headless/extract.py:274-314 | exactly what is reported as wrong with a reply |
| ExtractCheck.AnswersAreSound | src/convert_search_ai/headless/extract.py:274-314 | every found value is proven: it meets its schema and its quote stands at its offset |
| ExtractCheck.Ask | src/convert_search_ai/headless/extract.py:629-656 | one asking, and one repair exactly when something is wrong with the first reply |
| ExtractCheck.AskedIsSound | src/convert_search_ai/headless/extract.py:629-656 | however the model replies, what is returned is sound, and an answer without problems is what one of the replies says |
| ExtractCheck.MergeOne | src/convert_search_ai/headless/extract.py:317-329 | the first window that found a value wins; dropped only if none found and one dropped it |
| ExtractCheck.Merge | src/convert_search_ai/headless/extract.py:317-329 | so for every field |
| ExtractCheck.MergedIsSound | src/convert_search_ai/headless/extract.py:317-329 | merging sound answers gives a sound answer |
| ExtractCheck.CountsAre | src/convert_search_ai/headless/extract.py:332-336 | what the three counts count |
| ExtractCheck.CountsAddUp | src/convert_search_ai/headless/extract.py:332-336 | found, not found and dropped add up to the number of fields |
| ExtractRun.Extractor.ReadText | src/convert_search_ai/headless/extract.py:446-461 | the text of this very version, re-indexed once when stale, or the reason there is none |
| ExtractRun.Extractor.ExtractText | src/convert_search_ai/headless/extract.py:486-500 | asks about every window in order until the provider fails, merges what came, and is valid exactly when no problem is left |
| ExtractRun.AllSound | src/convert_search_ai/headless/extract.py:486-500 | the answers of all windows are sound |
| ExtractRun.Extractor.ExtractOne | src/convert_search_ai/headless/extract.py:463-525 | where a target is to be read, its text is there and no cached entry is used: one asking for each window until the provider fails, the item failed exactly when one did, valid exactly when no reply left a problem, and each field the merger of what the replies say; where it is not, the reason, or the cached data; only valid answers are cached |
| ExtractRun.Extractor.GoodReplyIsReported | src/convert_search_ai/headless/extract.py:463-525 | a model that answers well, at once or when asked again, is heard: the item says of every field the value, quote and unit of its reply |
| ExtractRun.Extractor.Run | src/convert_search_ai/headless/extract.py:659-746 | one item for each target until cancelled, each the one its target makes of the replies, cache and rows of its moment; skipped for budget exactly once the budget was out at a target to be read; the summary is that of the items; every value reported is sound |
| ExtractRun.SummaryAddsUp | src/convert_search_ai/headless/extract.py:736-746 | extracted, skipped and failed add up to the items (so to the files of an uncancelled run), and found, not found and dropped to fields x extracted |
| ExtractRun.NothingInvented | src/convert_search_ai/headless/extract.py:274-314 | a reported value meets its schema, and its quote's words stand in the document from its offset on and nowhere earlier |
| FolderWalk.WalkIsByLevel | src/convert_search_ai/headless/extract.py:401-429 | the queue yields the documents level by level |
| FolderWalk.WalkLevel | src/convert_search_ai/headless/extract.py:408-427 | a queue with the rest of a level in front yields that rest first |
| FolderWalk.PopShrinks | src/convert_search_ai/headless/extract.py:408-410 | reading a folder shrinks what is left to read, cycles or not |
| FolderWalk.ReadFolder | src/convert_search_ai/headless/extract.py:417-433 | the loop over one folder's entries, stopping one document past the cap |
| FolderWalk.Folder | src/convert_search_ai/headless/extract.py:401-434 | the first `cap` documents of the full level-order listing, and truncated exactly when there are more |
| FolderWalk.ListedIff | src/convert_search_ai/headless/extract.py:401-434 | a document is in the full listing exactly when it is wanted and lies in a folder at most twelve steps below, or in the folder itself where the listing does not recurse |
| Ingest.EventSource.Read | src/convert_search_ai/events.py:61-78 | up to `count` new entries in order, which become pending, even if the reply is lost |
| Ingest.EventSource.ReadPending | src/convert_search_ai/events.py:80-97 | up to `count` of the oldest pending entries; none on a timeout, an exception on any other failure |
| Ingest.Ingestor.Process | src/convert_search_ai/ingest.py:240-259 | events are handled and acknowledged in order up to the first the core refuses as read-only, or whose acknowledgement fails |
| Ingest.Ingestor.Settle | src/convert_search_ai/events.py:99-101 | an acknowledgement that fails ends the process, or the drain, whether the server did it or not |
| Ingest.Ingestor.RunOnce | src/convert_search_ai/ingest.py:223-259 | which batch is read, how many are acknowledged, what stays pending, when it is degraded, and when an exception ends the process |
| Ingest.Ingestor.Fetch | src/convert_search_ai/ingest.py:236-238 | the same, for new events |
| Ingest.Ingestor.DrainPending | src/convert_search_ai/ingest.py:261-309 | how many events are recovered and what stays pending, however its reads and acknowledgements end; an exception does not stop the worker |
| Ingest.Ingestor.DrainRound | src/convert_search_ai/ingest.py:284-295 | one batch of it, and whether it goes on |
| Ingest.Drained | src/convert_search_ai/ingest.py:283-295 | when nothing fails, a drain leaves nothing pending |
| Ingest.Ingestor.Replay | src/convert_search_ai/ingest.py:289-295 | a batch is handled and acknowledged whatever comes out, up to the first acknowledgement that fails |
| Ingest.Reached | src/convert_search_ai/ingest.py:223-295 | the invariant of every run of steps, crashes included |
| Ingest.NothingLost | src/convert_search_ai/ingest.py:223-295 | at every instant of every run each delivered event is pending or acknowledged, never both, and none is acknowledged before it was handled without a read-only refusal (or on a restart, handled at all) |
| Ingest.AlwaysInOrder | src/convert_search_ai/ingest.py:223-309 | when no step strands an event: the acknowledged are a first part of the delivered, pending is exactly the rest, and a worker at rest that is not degraded has nothing pending |
| Ingest.InOrderIff | src/convert_search_ai/ingest.py:223-309 | and at every point of a run exactly then: a step strands something when a read of the pending list times out, a drain ends by an exception, or the reply to a read of new events is lost, with anything left pending |
| Ingest.StrandingBreaksOrderIff | src/convert_search_ai/ingest.py:228-309 | after any of these the order survives the next new event exactly when nothing was left pending or the core refuses that event |
| Ingest.StrandingsHappen | src/convert_search_ai/ingest.py:223-309 | runs from the start that reach each of them and end out of order |
| PromptSets.CleanValues | src/convert_search_ai/headless/promptsets.py:109-123 | the loop over enum values computes the cleaned list |
| PromptSets.NormaliseAll | src/convert_search_ai/headless/promptsets.py:163-169 | the loop over fields computes the normalised fields |
| PromptSets.ParseAll | src/convert_search_ai/headless/promptsets.py:350-360 | the loop over a file's sets computes their definitions |
| PromptSets.NormaliseIsCanonical | src/convert_search_ai/headless/promptsets.py:138-200 | whatever is accepted is canonical: trimmed, within limits, names once, labels sorted, colours lower-case and of known fields |
| PromptSetReading.NormaliseIff | src/convert_search_ai/headless/promptsets.py:70-200 | a tree is accepted exactly when it says a canonical definition, and yields that definition |
| PromptSetReading.FieldIff | src/convert_search_ai/headless/promptsets.py:89-135 | the same for a field, its type, texts, bounds and enum values |
| PromptSetReading.LimitsAre | src/convert_search_ai/headless/promptsets.py:44-57 | the limits of a definition, in figures |
| PromptSetFiles.SlugIs | src/convert_search_ai/headless/promptsets.py:48-48 | which slugs there are |
| PromptSetFiles.FieldNameIs | src/convert_search_ai/headless/promptsets.py:47-47 | which names a field can have |
| PromptSets.CanonicalIffFixed | src/convert_search_ai/headless/promptsets.py:138-200 | the canonical bodies are exactly the fixed points of normalising |
| PromptSets.NormaliseTwice | src/convert_search_ai/headless/promptsets.py:138-200 | normalising is idempotent |
| PromptSets.SortedOnce | src/convert_search_ai/headless/promptsets.py:178-179 | there is one sorted order of a set of labels |
| PromptSets.FieldBack | src/convert_search_ai/headless/promptsets.py:89-135 | a tree that says what a canonical field says normalises to it |
| PromptSets.BodyBack | src/convert_search_ai/headless/promptsets.py:138-200 | the same for whole definitions, whether they spell out what is empty or not |
| PromptSets.RawReads | src/convert_search_ai/headless/promptsets.py:262-294 | an export says what the body says |
| PromptSets.ItemBack | src/convert_search_ai/headless/promptsets.py:307-360 | an exported item is read as a definition, not as the older form |
| PromptSets.DumpedSets | src/convert_search_ai/headless/promptsets.py:297-348 | a dumped file of one set or several holds just these sets |
| PromptSetFiles.ItemIs | src/convert_search_ai/headless/promptsets.py:307-360 | what one item of a file is read as: the older form as text fields, any other less the four keys a file adds |
| PromptSetFiles.FileIsRead | src/convert_search_ai/headless/promptsets.py:322-360 | a file is read exactly when it is at most 262144 bytes of YAML that hold 1 to 50 objects, which are read one by one |
| PromptSets.ExportImport | src/convert_search_ai/headless/promptsets.py:262-360 | exporting canonical definitions and importing the file gives the same bodies, without warnings, exactly when there are 1 to 50 of them and the file is within its size |
| PromptSetStore.MemoryPromptSetStore.BySlug | src/convert_search_ai/headless/promptset_store.py:220-224 | a set of that slug, or there is none |
| PromptSetStore.MemoryPromptSetStore.CreateSet | src/convert_search_ai/headless/promptset_store.py:241-251 | a new row, or nothing when the slug is taken |
| PromptSetStore.MemoryPromptSetStore.LastRevision | src/convert_search_ai/headless/promptset_store.py:257-257 | the greatest number of the set's revisions |
| PromptSetStore.MemoryPromptSetStore.Append | src/convert_search_ai/headless/promptset_store.py:253-268 | a revision under the next number; the row follows a published one |
| PromptSetStore.MemoryPromptSetStore.Rewrite | src/convert_search_ai/headless/promptset_store.py:270-276 | changes a draft, and only a draft |
| PromptSetStore.MemoryPromptSetStore.Release | src/convert_search_ai/headless/promptset_store.py:278-293 | publishes a draft, and the row follows |
| PromptSetStore.MemoryPromptSetStore.UpdateSet | src/convert_search_ai/headless/promptset_store.py:295-303 | the columns given, and no others |
| PromptSetStore.LastAfterAdd | src/convert_search_ai/headless/promptset_store.py:253-268 | appending makes the set's last number one higher, and no other's |
| PromptSetStore.AddKeeps | src/convert_search_ai/headless/promptset_store.py:253-268 | appending keeps the history sound and everything frozen as it is |
| PromptSetStore.DraftKeeps | src/convert_search_ai/headless/promptset_store.py:270-276 | so does rewriting the last draft |
| PromptSetStore.PublishKeeps | src/convert_search_ai/headless/promptset_store.py:278-293 | so does publishing the last draft under a free slug |
| PromptSetStore.CreateKeeps | src/convert_search_ai/headless/promptset_store.py:241-251 | so does a new set |
| PromptSetStore.ControlKeeps | src/convert_search_ai/headless/promptset_store.py:295-303 | so do retiring, taking over and locking |
| PromptSetService.PromptSetService.Create | src/convert_search_ai/headless/promptset_service.py:222-236 | a set with a draft, or the refusal the rules call for |
| PromptSetService.PromptSetService.SaveDraft | src/convert_search_ai/headless/promptset_service.py:238-257 | the open draft rewritten or a new one, or the refusal |
| PromptSetService.PromptSetService.Publish | src/convert_search_ai/headless/promptset_service.py:259-271 | the open draft published, or the refusal |
| PromptSetService.PromptSetService.Retire | src/convert_search_ai/headless/promptset_service.py:273-285 | the set retired, or the refusal |
| PromptSetService.PromptSetService.SetControl | src/convert_search_ai/headless/promptset_service.py:287-300 | manager and lock as asked, or the refusal |
| PromptSetService.PromptSetService.ImportSet | src/convert_search_ai/headless/promptset_service.py:338-371 | one definition becomes a draft of the set it belongs to, or a new set, renamed and without its slug where these are taken |
| PromptSetService.PromptSetService.ImportYaml | src/convert_search_ai/headless/promptset_service.py:323-375 | all definitions of a file are stored, or none |
| PromptSetService.PromptSetService.AppPublish | src/convert_search_ai/headless/promptset_service.py:377-450 | what an application's publish does, refusal by refusal |
| PromptSetService.PromptSetService.AppRetire | src/convert_search_ai/headless/promptset_service.py:452-464 | what an application's retirement does |
| PromptSetCalls.CreateIff | src/convert_search_ai/headless/promptset_service.py:222-236 | which refusal a new set meets and what it stores otherwise, row and revision in full |
| PromptSetCalls.SaveDraftIff | src/convert_search_ai/headless/promptset_service.py:238-257 | the same for a draft |
| PromptSetCalls.PublishIff | src/convert_search_ai/headless/promptset_service.py:259-271 | for a publication |
| PromptSetCalls.RetireIff | src/convert_search_ai/headless/promptset_service.py:273-285 | for a retirement |
| PromptSetCalls.SetControlIff | src/convert_search_ai/headless/promptset_service.py:287-300 | for taking over and locking |
| PromptSetCalls.ImportOneIs | src/convert_search_ai/headless/promptset_service.py:338-371 | for one imported definition |
| PromptSetCalls.AppCreateIff | src/convert_search_ai/headless/promptset_service.py:377-450 | for the first publish of an application |
| PromptSetCalls.AppPublishIff | src/convert_search_ai/headless/promptset_service.py:377-450 | for its later ones: each refusal exactly under its rule |
| PromptSetCalls.AppRetireIff | src/convert_search_ai/headless/promptset_service.py:452-464 | for its retirement |
| PromptSetCalls.ResolveIff | src/convert_search_ai/headless/promptset_service.py:204-218 | what a run is given, pinned or not, and when it is refused |
| PromptSetService.StepKeeps | src/convert_search_ai/headless/promptset_service.py:222-464 | every call keeps the history sound and extends it |
| PromptSetService.HistoryIsSound | src/convert_search_ai/headless/promptset_service.py:222-464 | after any calls: revisions numbered 1 to n, the current one is the highest published and mirrored by the row, slugs unique |
| PromptSetService.FrozenForever | src/convert_search_ai/headless/promptset_service.py:222-464 | published revisions, and all but the last, never change again |
| PromptSetService.PinnedStaysPut | src/convert_search_ai/headless/promptset_service.py:204-218 | a pinned revision resolves to the same definition until its set is retired; without a pin, the highest published one |
| PromptSetService.OnlyTheAllowedWrite | src/convert_search_ai/headless/promptset_service.py:96-107 | a call that changes anything was allowed to: builders' calls take an editor in the web application; applications leave retired, locked, editor-managed and moved-on sets alone |
| PromptSetService.OnlyPublishingMovesCurrent | src/convert_search_ai/headless/promptset_service.py:222-464 | only publishing makes another revision current |
| PromptSetService.ApplicationsAreLimited | src/convert_search_ai/headless/promptset_service.py:395-430 | applications add a set only below the cap, and write to one only below its daily limit |
| PromptSetService.PublishTwice | src/convert_search_ai/headless/promptset_service.py:377-450 | publishing twice is publishing once: a second identical publish leaves the store as the first did |
| PromptSetService.ExportedFileImports | src/convert_search_ai/headless/promptset_service.py:303-337 | a file exported from canonical definitions imports as those definitions |
| PromptSetService.ImportedNameTrimmed | src/convert_search_ai/headless/promptset_service.py:357-358 | when an imported set's new name is in canonical form |
| PromptSetBodies.StoredCanonicalIff | src/convert_search_ai/headless/promptset_service.py:222-450 | after any calls, a stored definition is canonical exactly unless it was imported beside a set of its name or slug with a name one character short of the limit; its name's last character tells |
| PromptSetBodies.SqueezedHappens | src/convert_search_ai/headless/promptset_service.py:338-371 | a run from the empty store for every such definition |
| PromptSetBodies.FileImportsIff | src/convert_search_ai/headless/promptset_service.py:303-337 | an exported file imports as the definitions it was made from exactly when all are canonical |
| PromptSetBodies.StoredFileImportsIff | src/convert_search_ai/headless/promptset_service.py:303-337 | a file exported after any calls comes back as it was exactly when no name in it ends in a blank |
| PromptSetRaces.SaveIsTwoSteps | src/convert_search_ai/headless/promptset_service.py:248-256 | saving a draft undisturbed is its read of the draft and then its write |
| PromptSetRaces.PublishIsTwoSteps | src/convert_search_ai/headless/promptset_service.py:259-271 | and so is publishing |
| PromptSetRaces.SoundIff | src/convert_search_ai/headless/promptset_store.py:114-199 | any step of any overlapping calls keeps the history sound exactly unless it publishes a draft that a published revision has overtaken |
| PromptSetRaces.SurvivesStepIff | src/convert_search_ai/headless/promptset_store.py:114-199 | and keeps it sound and all frozen revisions as they are exactly unless it changes a draft that another revision has followed |
| PromptSetRaces.HistorySurvivesIff | src/convert_search_ai/headless/promptset_service.py:222-450 | both, over every run of overlapping calls |
| PromptSetRaces.SurvivorsKeepFrozen | src/convert_search_ai/headless/promptset_service.py:222-450 | and at the end of such a run everything frozen at its start is as it was |
| PromptSetRaces.PassedIffAdded | src/convert_search_ai/headless/promptset_store.py:253-268 | a draft read stops being the last revision exactly when somebody adds one before the write |
| PromptSetRaces.OvertakenRun | src/convert_search_ai/headless/promptset_service.py:259-271 | a run from the empty store in which an older definition becomes current again |
| PromptSetRaces.RewrittenRun | src/convert_search_ai/headless/promptset_service.py:238-257 | a run from the empty store in which a frozen revision is rewritten |
| Permissions.PermissionGate.Lookup | src/convert_search_ai/permissions.py:44-48 | a live decision, or none |
| Permissions.PermissionGate.Store | src/convert_search_ai/permissions.py:50-51 | the decision, for the cache's lifetime |
| Permissions.PermissionGate.CanRead | src/convert_search_ai/permissions.py:40-77 | undisturbed: the live decision, or permission and existence both asked and both yes |
| Permissions.PermissionGate.Invalidate | src/convert_search_ai/permissions.py:84-103 | exactly the decisions the news concerns go |
| Permissions.LookAnswers | src/convert_search_ai/permissions.py:40-48 | a live decision answers, and nothing is asked; any other check goes on |
| Permissions.PermittedAlone | src/convert_search_ai/permissions.py:49-77 | undisturbed, with permission and file there, the answer is yes and is kept |
| Permissions.DeniedAlone | src/convert_search_ai/permissions.py:49-77 | with permission refused, or not to be had, it is no, without asking on, and is kept |
| Permissions.NewsDrops | src/convert_search_ai/permissions.py:84-103 | which decisions each kind of news drops |
| Permissions.KeepsBacked | src/convert_search_ai/permissions.py:40-103 | every step keeps every yes backed by the core |
| Permissions.YesIsRecent | src/convert_search_ai/permissions.py:40-77 | under every interleaving a yes means the core permitted, then had the file, after `now - ttl` or since the request came |
| Permissions.NewsHolds | src/convert_search_ai/permissions.py:84-103 | after an invalidation every yes is newer than it, when no check told yes is under way |
| Permissions.NewsHoldsIffQuiet | src/convert_search_ai/permissions.py:40-103 | every later yes is newer than the news, whatever the core says from then on, exactly when no check told yes is under way as it comes |
| Permissions.CheckUnderWayIsStale | src/convert_search_ai/permissions.py:49-103 | such a check goes on to a yes that the core no longer backs |
| Permissions.StaleYes | src/convert_search_ai/permissions.py:40-103 | a run from the start in which it does, and the next request takes that yes from the cache |
| Revocation.RevocationChecker.Prune | src/convert_search_ai/token_revocation.py:161-167 | expired entries go, or all when the live ones fill the cache |
| Revocation.RevocationChecker.Check | src/convert_search_ai/token_revocation.py:143-159 | a live answer, or a fresh one, remembered unless unknown |
| Revocation.RevocationChecker.VerdictOn | src/convert_search_ai/token_revocation.py:130-141 | what the policy makes of it |
| Revocation.RunKeepsInv | src/convert_search_ai/token_revocation.py:130-167 | the invariant of every interleaving |
| Revocation.SignedOutIsRefused | src/convert_search_ai/token_revocation.py:130-159 | a token signed out at r gets no permit from r + ttl on; a refusal as revoked is never wrong |
| Revocation.GoodStandingIsPermitted | src/convert_search_ai/token_revocation.py:130-159 | over every run: a token never signed out is let through whenever its check can reach the denylist |
| Revocation.AloneIsTold | src/convert_search_ai/token_revocation.py:130-159 | a request alone, from the start: let through, refused as revoked, or, with the denylist out of reach, answered by the policy |
| Revocation.LapseIsTight | src/convert_search_ai/token_revocation.py:143-159 | a run from the start in which a token signed out at r is let through at r + ttl - 2, from the cache |
| Revocation.CacheIsBounded | src/convert_search_ai/token_revocation.py:143-167 | the cache holds true answers only, and at most its maximum |
| Revocation.NoRoomIsExceeded | src/convert_search_ai/token_revocation.py:153-167 | a maximum below one is exceeded |
| ScopeWalk.ResolveScopeFileUids | src/convert_search_ai/retrieval.py:99-123 | the documents of the folders read, all reachable; the whole scope, unless more folders are reachable than the cap |
| ScopeWalk.ReadEntries | src/convert_search_ai/retrieval.py:117-122 | the loop over one folder's entries |
| ScopeWalk.ClosedHoldsAll | src/convert_search_ai/retrieval.py:107-122 | when the stack empties, every reachable folder was read |

## Left out

- One tenant per store object; an operation reads the clock once.
- `Finish` of the job store: the error for unknown field names, which no caller passes.
- `for_file`, `finished_publishes`, `list`, `get`, `revisions` and other views: they only sort and shape rows.
- Media publishing: `reap_orphans`, the unpublish route and two live workers on one job, across which the code does
  not keep the invariants; erasure racing a conversion; fetching the
  source, and the encoder, whose outcome and last percentage are inputs. A stat and a removal
  of one child are one step of the protocol, and `put` is atomic.
- `MediaPublish.DoKeepsInv`: assumes that no two requested versions of a file sanitise to one name, that stale jobs have no
  live worker, that the size of an empty child can be asked for (the runs in `MediaPublishHollow` show why), that
  encoders produce content, and that the other writers of a file's children publish and remove no media.
- Consent: the text of the event sent to the client, and the making of request ids, which are inputs.
- `ConsentRelay.DeliveredOnceToTheOwner`: messages may be delivered any number of times to any instance, more than the channel does.
- `Indexing.IndexLosesNothing`: which wording of a provider's error means too long or too many is an input, and a reply without an
  error is assumed to hold one vector for each text.
- `Locate.LocateIff`: the comparison of characters without case is an input, assumed to tell separators from other characters.
- Extraction: the prompt, JSON parsing, JSON Schema, token counts, mark-up, events and audit; the order in which a
  folder's entries are sorted, its matching rules and permission checks are inputs of `FolderWalk`.
- `ExtractRun.Extractor.Run`: assumes that the text stored for a version of a file stays the same, and treats two
  questions with the same cache key as the same question.
- `resolve` and `_named` of the extractor: one lookup for each named file.
- `filter_readable`: one permission check for each uid.
- Ingestion: what handling an event does (three outcomes), trimming of the stream, several consumers in one group.
- Prompt sets: YAML text (dumping and loading are the identity on trees), keys that are not strings, numbers that are
  not finite, the compiled schema (only its length matters here), warnings about models, timestamps of rows;
  the hash of a definition is some function of it.
- `PromptSets.Normalise`: which of two faults in one `markup.colours` is reported depends on the order of its keys, and is left open.
- `PromptSetService.HistoryIsSound`: calls follow one another; when they overlap the code does not keep the property, and
  `PromptSetRaces` says exactly when it survives. There, only the reads of the open draft are apart from the writes: the
  other checks a call makes first (who may write, locks, base revisions, limits) are not interleaved. The Postgres store is not modelled
  beside the one in memory; its writes are the same, and in `PromptSetRaces` its unique index rolls back a publication whose slug is taken.
- `PromptSetService.PromptSetService.ImportYaml`: which of several sets of one name is meant is an input, as it depends on the listing's order.
- Permissions and revocation: clocks that go back; a denylist entry that expires before its token does.
- Routes, streaming, configuration, metrics, plugins, credentials and network clients.
