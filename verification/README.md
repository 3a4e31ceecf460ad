# Verified model of the AudiModal processing core

A Dafny model of the parts of AudiModal where several processes, or several
calls spread over time, have to agree: the page pipeline over Kafka and
PostgreSQL, processing sessions, batch analysis, alerting, rate limiting, token
revocation, chunk batching, sentence selection, migrations and the todo file.

`dafny verify dfyconfig.toml` checks the whole project.

## How it is modelled

Concurrent code is a state machine whose steps are the statements of the
handlers (`PagePipeline`, `ChunkPipeline`, `SessionRuns`, `AlertPool`). `Runs`
folds a step function over a schedule; a disabled step changes nothing, so a
claim over all schedules is a claim over all interleavings. Topics are multisets
or sequences, tables are maps, and each statement is one atomic step.

Code that updates objects in place is a class, or a method with the loop of the
source, proved against specification functions; the lemmas beside it are about
those functions. Handlers are also given one message at a time in this form
(`Assembler`, `PageWorkers`, `ChunkWorkers`), and tied to the machines: each
handling of a page result or a split is a run of the page machine
(`AssemblerRuns.HandleIsRun`, `PageWorkers.SplitIsRun`), and each statement of
the DLP and embedding workers takes a step of the chunk machine beside it, whose
invariant the program therefore keeps (`ChunkWorkers.ChunkTables`).

Calls to services outside this code (S3, OCR, DLP scanning, embedding, channels,
the database where a statement can fail) are parameters or nondeterministic
results. Time is a reading that does not go back.

| file | what it holds |
|---|---|
| `Runs.dfy`, `Collections.dfy`, `Options.dfy` | runs of a state machine; sets, maps and lists; an option type |
| `PagePipeline.dfy` | splitter, OCR workers, assemblers, stale-job detector, interleaved |
| `PageProgress.dfy` | that runs of the page pipeline end, and what they end with |
| `AssemblyRaces.dfy` | which deployments can assemble twice or lose a verdict |
| `PageWorkers.dfy` | SplitFile and the OCR worker, one message at a time |
| `Assembler.dfy`, `AssemblerRuns.dfy` | the assembler's code, order independence, link to the machine |
| `ChunkPipeline.dfy`, `ChunkWorkers.dfy` | DLP and embedding workers, interleaved and one message at a time |
| `Session.dfy`, `SessionRuns.dfy`, `SessionProgress.dfy` | the session object; its goroutines; the progress they store |
| `BatchAnalysis.dfy` | batch analysis, sequential and concurrent |
| `Alerting.dfy`, `AlertPool.dfy` | rules, deduplication, delivery; the queue and its workers |
| `RateLimiter.dfy`, `Revocation.dfy` | the pruned tables of requests and of revoked tokens |
| `ChunkBatching.dfy`, `TopSentences.dfy`, `Migrator.dfy`, `TodoFile.dfy` | the sequential algorithms |

## Where the code does less than one might expect

Each of these is stated with the exact condition, and a run or an input where it
fails.

- Two assemblers that both increment before either reads back both assemble the
  file. That cannot happen if and only if there is at most one assembler, at most
  one page or no OCR worker (`AssemblyRaces.AssemblesOnceIff`); of a run, if and
  only if the assembler that counts the last page is alone between the two
  statements (`PagePipeline.AssemblyTrigger`).
- SplitFile's last write can overwrite a final status, after which the stale-job
  detector times the job out (`AssemblyRaces.LateSplitterLosesTheVerdict`,
  `AssemblyRaces.NeverLateIff`; of a run, `PagePipeline.FinalStatus`).
- A session without a semaphore slot never completes, unless it has no file, and
  with a negative number of slots not even then (`SessionRuns.MaximalRunsComplete`);
  a session stopped while it runs ends completed all the same
  (`SessionRuns.StopIsOverwritten`); a second AddFilesToSession call overwrites the
  total but keeps the jobs (`Session.TotalFilesCountsJobs`).
- Alerts of a tenant are stored in the order they were accepted if and only if the
  pool has at most one worker (`AlertPool.OrderIffOneWorker`); a WorkerPoolSize of
  0 or less means three.
- A revoked token can be accepted again: ValidateToken reads the clock before the
  table, and a cleanup can come in between. A revocation lasts if and only if the
  entry outlives the token by the slowest validation (`Revocation.RevocationLasts`).
  Under the defaults that shuts out access tokens, refresh tokens unless a
  validation takes longer than it was from issue to revocation, and no API token
  revoked in its first 358 days (`Revocation.DefaultLifetimes`).
- The progress stored in the session row can fall, and can end below 1, if and only
  if two files are processed at a time (`SessionProgress.RowProgressIff`).
- A page whose result is lost leaves its file without assembly, and the job to the
  stale-job detector (`PageProgress.MaximalRunsAssemble`).
- The quality score leaves rows without a rating out of the mean
  (`ChunkBatching.ScoreIsMeanIff`).
- Two migration files share version 005 (`Migrator.ShippedFilesDoNotResume`,
  `Migrator.ResumesIff`).
- Todo texts that are empty, end in white space or hold a newline do not come
  back (`TodoFile.RoundTripIff`).

## Model

| member | source | states |
|---|---|---|
| `PagePipeline.RunKeepsInv` | `cmd/assembler/main.go:199-230` | Every interleaving of the splitter, any number of OCR workers, any number of assemblers and the stale-job detector keeps the invariant: each page in exactly one place, pages conserved, rows and counters in step, assembly calls and final status accounted for. |
| `PagePipeline.PageConservation` | `internal/processors/splitter.go:98-167` | In every reachable state, pages not yet written, queued page jobs, pages in OCR, lost results, queued results, results being handled and both counters add up to the total. |
| `PagePipeline.CountersAtMessageBoundary` | `cmd/assembler/main.go:199-223` | When no assembler is between fetch and increment, the two counters equal the numbers of completed and failed page rows, and IsComplete holds if and only if every page row is there and none is pending. |
| `PagePipeline.AssemblyTrigger` | `cmd/assembler/main.go:203-230` | assembleFile is never called before all results are counted; once they are and nobody stands before the read it has been called, and exactly once if and only if the assembler that counted the last page stood alone between increment and read. |
| `PagePipeline.OneAtATimeAssemblesOnce` | `cmd/assembler/main.go:203-230` | With one result handled at a time there is at most one call, and exactly one once all pages are counted and the assembler is idle. |
| `PagePipeline.FinalStateIsStable` | `cmd/assembler/main.go:640-663` | Once all pages are counted, the splitter has returned, the assemblers are idle and the status is final, no step of any process changes anything, the stale-job detector included. |
| `PagePipeline.FinalStatus` | `cmd/assembler/main.go:456-466` | With the splitter returned and everything counted, the status is the verdict on the failed pages if and only if SplitFile's last write did not overwrite a final status. |
| `PagePipeline.VerdictIfSplitReturnsFirst` | `internal/processors/splitter.go:169-174` | If SplitFile's last write comes before the last result is counted, every continuation ends in the verdict on the page rows (failed from a fifth of the pages on, completed with none failed, else partial), and then no further step changes anything. |
| `PageProgress.MaximalRunsAssemble` | `cmd/assembler/main.go:145-230` | On every run at most 9 n + 4 steps change anything; and with a worker of each kind, once no step but the stale-job detector's can, the file has been assembled if and only if no page was lost or left unwritten, and a job that SplitFile returned from without assembly ends timed out. |
| `PageProgress.StepLowersRank` | `internal/processors/splitter.go:78-174` | Every step of any process that changes anything lowers the number of steps left. |
| `AssemblyRaces.AssemblesOnceIff` | `cmd/assembler/main.go:203-230` | The file is assembled at most once on every run if and only if there is at most one assembler, at most one page or no OCR worker. |
| `AssemblyRaces.RaceCallsTwice` | `cmd/assembler/main.go:203-226` | In every other deployment a run on which the last two pages are counted before either assembler reads calls assembleFile twice. |
| `AssemblyRaces.NoRaceOneAssembly` | `cmd/assembler/main.go:203-230` | Otherwise no run calls it more than once. |
| `AssemblyRaces.NeverLateIff` | `internal/processors/splitter.go:169-174` | SplitFile's last write never hits a final status, on any run, if and only if there is no OCR worker or no assembler. |
| `AssemblyRaces.LateSplitterLosesTheVerdict` | `internal/processors/splitter.go:169-174` | For every file, with an OCR worker and an assembler, there is a run that completes every page and ends with the job timed out. |
| `PageWorkers.SplitterTables.SplitFile` | `internal/processors/splitter.go:42-179` | The error is that of the first call to go wrong. A fault before the job row leaves no job, a later one a failed job, none a job in processing; then, and after a fault in writing the messages, there is a pending row for each page from 1 to the total, and the messages appended are, in page order, those of the pages not lost, each with file, page, total and the classification or "unknown". |
| `PageWorkers.SplitterTables.PreparePages` | `internal/processors/splitter.go:93-150` | Row i is (i + 1, pending), and message i is for page i + 1, with the total and its classification or "unknown". |
| `PageWorkers.SplitterTables.WriteMessages` | `internal/processors/splitter.go:158-164` | Appends the messages of the pages that are not lost, in page order, and reports an error if and only if a page is lost. |
| `PageWorkers.MessagesCover` | `internal/processors/splitter.go:98-150` | The messages are one for each page that is not lost. |
| `PageWorkers.MessagesInOrder` | `internal/processors/splitter.go:98-150` | With none lost, message k is that of page k + 1, with its classification or "unknown". |
| `PageWorkers.SplitIsRun` | `internal/processors/splitter.go:78-174` | Whichever call goes wrong once the job row is there, or none, SplitFile's status, page rows and messages are those the splitter of the interleaved machine leaves. |
| `PageWorkers.OcrWorker.GetOrDownload` | `cmd/ocrworker/main.go:271-302` | The path returned is one downloaded for the file asked for, it exists if and only if the cached copy is present or the download works, and no other file's entry changes. |
| `PageWorkers.OcrWorker.ProcessPageJob` | `cmd/ocrworker/main.go:131-249` | At most one result for a job, bearing its file, page and total: text if and only if the file was had and read, otherwise the error type of the step that failed. |
| `PageWorkers.OcrRun` | `cmd/ocrworker/main.go:131-249` | In the interleaved machine a page taken from the queue ends among the good results, the bad results or the lost ones, as its job comes out, and nothing else moves. |
| `Assembly.Assembler.ProcessPageResult` | `cmd/assembler/main.go:145-230` | The page row takes status, stored text and positive confidence from the result and no other row changes; one counter goes up by one; the file is assembled if and only if the counters then reach the total, and otherwise nothing else changes. |
| `Assembly.Assembler.AssembleFile` | `cmd/assembler/main.go:232-486` | Over every exit: failed with the file in error from a fifth of the pages on, failed when the file row is missing or the insert fails, else completed or partial with the event of each; a failed job adds no chunk and no DLP job. |
| `Assembly.Assembler.ChunkPages` | `cmd/assembler/main.go:322-442` | The loop over completed pages makes the chunks of ChunksOf: skipped pages use up a number, redaction applies as the scan answers. |
| `Assembly.Assembler.PublishDLPJobs` | `cmd/assembler/main.go:577-617` | One DLP job for each chunk whose message is written, in chunk order. |
| `Assembly.Assembler.DetectStale` | `cmd/assembler/main.go:640-663` | A splitting or processing job is timed out; any other status stays. |
| `Assembly.AverageOCRConfidence` | `cmd/assembler/main.go:562-575` | The mean of the confidences that were reported, 0 when none was. |
| `Assembly.MeanBounds` | `cmd/assembler/main.go:562-575` | The mean lies between any bounds of the reported confidences. |
| `Assembly.AfterArrivals` | `cmd/assembler/main.go:199-230` | Before the last result the tables depend only on the set of results delivered; from the last result on they are one outcome, assembled once, with a final status that no stale tick changes. |
| `Assembly.BeforeTheLast` | `cmd/assembler/main.go:145-230` | Until the last result is in, the counters are the numbers of good and bad results delivered, each row says what was delivered for its page, the status is processing or, after a stale tick, timed out, and nothing has been assembled. |
| `Assembly.OrderIndependence` | `cmd/assembler/main.go:243-466` | Any two delivery orders of the same results, with stale ticks anywhere, end in identical tables: status, rows, chunks, DLP jobs, chunk count and event. |
| `Assembly.OutcomeRows` | `cmd/assembler/main.go:145-200` | At the end the row of each page from 1 to the total has the status of its result, its text if it was good, not empty and stored, and its confidence if positive. |
| `Assembly.FailureThreshold` | `internal/database/models/processing_job.go:82-88` | The failure rate reaches 0.2 if and only if five times the failed pages reach the total. |
| `Assembly.OutcomeStatus` | `cmd/assembler/main.go:243-466` | For every answer of the services the final status is the verdict on the number of failed results and on whether the chunks could be stored. |
| `Assembly.OutcomeFollowsStatus` | `cmd/assembler/main.go:243-486` | The file row is in error if and only if a fifth of the results failed, else processed unless the job failed; a failed job leaves no chunk and no DLP job; the chunk count is that of the chunks; a completed job announces the document with that count, a partial one and one with a fifth failed announce a failure, and no other event is sent. |
| `Assembly.FailedIff` | `cmd/assembler/main.go:243-450` | The job ends failed if and only if a fifth of its pages failed, the file row is missing, or some page has a text to make a chunk of and the insert fails. |
| `Assembly.AnnouncedConfidence` | `cmd/assembler/main.go:484-575` | The confidence announced is the sum of the positive confidences of the good results over their number, 0 when there is none. |
| `Assembly.ChunkTable` | `cmd/assembler/main.go:326-442` | The chunks are exactly those of the completed pages whose text can be read and stored, in page order, each numbered by the rank of its page among the completed pages. |
| `Assembly.OutcomeChunks` | `cmd/assembler/main.go:326-466` | Whenever the job does not end failed it ends with such a chunk table, and its DLP jobs are those of the chunks. |
| `Assembly.ChunkContents` | `cmd/assembler/main.go:326-442` | Each chunk of a job that does not end failed belongs to a page with a good, non-empty result whose text was stored, read back and stored again, bears the number of good pages up to its own, and holds the sanitised text, unscanned, without redaction or when the scan fails; the sanitised text, scanned, when nothing matches; the redacted text, scanned and with personal data, when something does, or the sanitised one when redaction gives none. |
| `Assembly.PagesHaveChunks` | `cmd/assembler/main.go:326-442` | And every page with such a text has its chunk, in page order, no page twice. |
| `Assembly.DlpJobsFollowChunks` | `cmd/assembler/main.go:577-612` | The DLP jobs are, in page order, exactly the pages of chunks whose job message was written. |
| `AssemblerRuns.HandleIsRun` | `cmd/assembler/main.go:145-230` | Handling one result alone is a run of the interleaved machine that ends in the same status, counters and page rows, for every result and every answer of the services. |
| `AssemblerRuns.StaleTickIsStep` | `cmd/assembler/main.go:640-663` | A tick of the stale-job detector changes the tables of the program and of the machine alike. |
| `ChunkPipeline.ScanBeforeEmbed` | `cmd/dlpworker/main.go:166-260` | In every run, with redelivered messages, backfilled duplicates and workers sharing a chunk, each queued embedding job and each embedded chunk comes after a scan of that chunk without error. |
| `ChunkPipeline.ReportIsNeverEarly` | `cmd/embeddingworker/main.go:194-226` | On every run, backfills at any moment and redelivered messages included, each report comes after the embedding of every chunk the assembly makes of the file. |
| `ChunkPipeline.CompleteFileIsReported` | `cmd/embeddingworker/main.go:205-226` | On every run, once every chunk is embedded and no worker still has to count, some worker has reported the file. |
| `ChunkPipeline.RunsKeepInv` | `cmd/dlpworker/main.go:150-293` | Every schedule of the assembler, the backfill tool and any number of workers keeps the invariant: scans come first, there are rows for all chunks or for none, reports come last. |
| `ChunkPipeline.AllCounted` | `cmd/embeddingworker/main.go:214-226` | The two counts are equal if and only if every chunk is embedded. |
| `ChunkPipeline.DlpStatusWrites` | `cmd/dlpworker/main.go:177-260` | The DLP worker of the machine writes only the scan status of its own chunk: processing, completed after a scan and failed after a failure; every other row and every embedding status stays. |
| `ChunkPipeline.EmbStatusWrites` | `cmd/embeddingworker/main.go:119-200` | The embedding worker likewise: processing, completed, failed or skipped in the embedding status of its own chunk. |
| `ChunkWorkers.ChunkTables.ProcessDLPJob` | `cmd/dlpworker/main.go:150-260` | The scan status of the chunk ends completed if it was or if text and scan both went through, failed otherwise; its embedding status and every other row stay; one embedding job more if and only if it ends completed and the write goes through; and the program stays where the machine can be. |
| `ChunkWorkers.ChunkTables.PublishEmbeddingJob` | `cmd/dlpworker/main.go:263-293` | One more embedding job for the chunk, or none when the write fails. |
| `ChunkWorkers.ChunkTables.ProcessEmbeddingJob` | `cmd/embeddingworker/main.go:119-212` | The embedding status ends skipped for an empty text, completed when the text was read and embedded, failed otherwise; its scan status and every other row stay; the file is reported if and only if this embedding left all chunks embedded; and the program stays where the machine can be. |
| `ChunkWorkers.ChunkTables.InsertChunks` | `cmd/assembler/main.go:444-451` | A row for each planned chunk, scan completed if it was scanned inline and else pending, embedding pending; or none, and the assembly is given up. |
| `ChunkWorkers.ChunkTables.BackfillChunk` | `cmd/backfill-dlp/main.go:50-90` | One more DLP job for a chunk whose row is pending, at any moment. |
| `ChunkWorkers.ChunkTables.HistoryIsInOrder` | `cmd/dlpworker/main.go:150-293` | In the program's own history, whatever it has handled, queued jobs and embeddings follow a clean scan of the chunk, and reports follow the embedding of every chunk of the file. |
| `ChunkWorkers.ChunkTables.CheckFileEmbeddingComplete` | `cmd/embeddingworker/main.go:214-226` | The file is reported if and only if it has a chunk and all its chunks are embedded. |
| `ChunkWorkers.DlpTwice` | `cmd/dlpworker/main.go:166-177` | A message delivered again after one that went through leaves the table alone and queues the embedding job again. |
| `Session.SessionContext.AddFiles` | `internal/processors/session.go:151-198` | Too many files are refused with nothing changed; otherwise the total is the length of the list and each of its files has a pending job. |
| `Session.SessionContext.Start` | `internal/processors/session.go:201-229` | Succeeds if and only if the session was pending, which it then is no longer. |
| `Session.SessionContext.Stop` | `internal/processors/session.go:461-480` | Cancels if and only if the session was running. |
| `Session.SessionContext.GetProgress` | `internal/processors/session.go:406-457` | Ended jobs over the total, 0 for an empty session. |
| `Session.CountTerminal` | `internal/processors/session.go:341-381` | Counts the completed and failed jobs, whatever order the map is visited in. |
| `Session.TotalFilesCountsJobs` | `internal/processors/session.go:174-195` | The total written by a call is the number of jobs if and only if the call leaves out as many jobs of earlier calls as it repeats ids; for distinct ids, if and only if it leaves out none. |
| `SessionRuns.SessionExecution` | `internal/processors/session.go:201-269` | On every interleaving processing is launched at most once, at most MaxConcurrentFiles goroutines are past the semaphore, each file enters processFile at most once, and exactly once, ending completed or failed, when the session completes. |
| `SessionRuns.MaximalRunsComplete` | `internal/processors/session.go:232-269` | A session has at most 11 n + 5 effective steps, and a launched run that cannot go on has reached completeSession if and only if MaxConcurrentFiles is at least 1, or is 0 and there is no file. |
| `SessionRuns.StopIsOverwritten` | `internal/processors/session.go:384-403` | A session that has finished is completed, with every file processed once, whether or not a stop came while it ran, and nothing changes it any more. |
| `SessionRuns.StopStopsNothing` | `internal/processors/session.go:461-480` | A stop cancels a running session, and whatever comes next does to files, goroutines and counters what it would have done without. |
| `SessionRuns.LaunchedIfSaved` | `internal/processors/session.go:220-226` | Processing starts only with a start whose status write went through. |
| `SessionRuns.SessionAccounting` | `internal/processors/session.go:272-338` | At every step the completed jobs are ProcessedFiles and the goroutines about to count a success, the failed ones FailedFiles, those about to count a failure and those not found, and TotalChunks is the sum over the results counted, each once. |
| `SessionRuns.OutcomeIsCounted` | `internal/processors/session.go:311-334` | A file the pipeline made n chunks of completes and adds 1 and n to the counters; one it failed on fails and adds 1. |
| `SessionRuns.MissingFileFails` | `internal/processors/session.go:277-284` | A file that is not found fails and is counted nowhere. |
| `SessionRuns.ProgressIsMonotone` | `internal/processors/session.go:406-457` | Progress is in [0, 1], never falls, and is 1 if and only if every job has ended. |
| `SessionProgress.RowProgressIff` | `internal/processors/session.go:341-381` | The progress in the session row never falls, on any run, if and only if MaxConcurrentFiles is at most 1 or there is one file; and exactly then every finished session whose last write went through is at 1. |
| `SessionProgress.CountIsOvertaken` | `internal/processors/session.go:341-381` | Otherwise there is a run on which every write goes through and the row goes from all files to one, where it stays. |
| `SessionProgress.RowIsNeverAhead` | `internal/processors/session.go:341-381` | On every run, lost writes included, the progress in the row is at most that of the jobs. |
| `SessionRuns.EndedJobsStay` | `internal/processors/session.go:272-338` | No step changes the state of a job that has completed or failed. |
| `SessionRuns.StepsRunOut` | `internal/processors/session.go:232-269` | Every effective step but a stop lowers the number of steps left. |
| `SessionRuns.SomeStepIsPossible` | `internal/processors/session.go:232-269` | While a session with a free or freeable slot is being processed, some step can be taken. |
| `BatchAnalysis.ProcessBatchConcurrently` | `internal/services/ml_analysis.go:631-693` | On every schedule of the goroutines no send blocks, no slot is filled twice or left open and the loop ends; reply i is completed with the response to request i, or an error with what went wrong. |
| `BatchAnalysis.ProcessBatchSequentially` | `internal/services/ml_analysis.go:695-727` | Reply i is completed with the response to request i, or an error with what went wrong. |
| `BatchAnalysis.AnalyzeBatch` | `internal/services/ml_analysis.go:266-325` | The same for both modes and every batch size; completed is the number of requests that got a response and failed the number of the others. |
| `BatchAnalysis.CountStatuses` | `internal/services/ml_analysis.go:304-311` | The numbers of completed replies and of the rest. |
| `BatchAnalysis.SendDoesNotBlock` | `internal/services/ml_analysis.go:631-671` | The channel has room whenever a goroutine has yet to send. |
| `BatchAnalysis.AllFilled` | `internal/services/ml_analysis.go:674-690` | When no goroutine runs and the channel is empty, every slot is filled. |
| `Alerting.RuleEngine.FindMatchingRules` | `pkg/anomaly/alerting.go:782-813` | Whatever the order of the map, a rule fires if and only if it is enabled, of the anomaly's tenant, past its cooldown when checked and all its conditions hold; those that fire are listed once, stamped and logged, and no other stamp moves. |
| `Alerting.RuleEngine.Consider` | `pkg/anomaly/alerting.go:788-809` | One rule is chosen if and only if it is enabled, of the tenant, past its cooldown at the reading it is checked against and all its conditions hold, and stamped no earlier than that. |
| `Alerting.RuleEngine.EvaluateConditions` | `pkg/anomaly/alerting.go:815-822` | True if and only if every condition holds. |
| `Alerting.RuleEngine.PutRule` | `pkg/anomaly/alerting.go:763-773` | Adding or updating a rule replaces its entry and leaves every cooldown running. |
| `Alerting.RuleEngine.RemoveRule` | `pkg/anomaly/alerting.go:775-780` | Removes the rule and its stamp; the history stays spaced. |
| `Alerting.RuleEngine.TriggersAreSpaced` | `pkg/anomaly/alerting.go:799-808` | Whatever was done to the rules, any two triggers of one with no removal in between are at least the later one's cooldown apart. |
| `Alerting.LastTriggerIsLast` | `pkg/anomaly/alerting.go:799-808` | The stamp kept is no older than that of any trigger since the last removal. |
| `Alerting.SpacedAfterTrigger` | `pkg/anomaly/alerting.go:799-808` | A trigger that waited for the cooldown keeps any two triggers of a rule, with no removal in between, at least the later one's cooldown apart. |
| `Alerting.AlertThrottler.ShouldThrottle` | `pkg/anomaly/alerting.go:917-933` | Throttled if and only if an alert with the same anomaly and rule, of all handled so far, passed less than the window before the reading it is compared at. |
| `Alerting.LastPassDecides` | `pkg/anomaly/alerting.go:917-933` | Remembering the last alert that passed decides as the whole history does. |
| `Alerting.PassesAreApart` | `pkg/anomaly/alerting.go:917-933` | Alerts of one key that pass are at least the window apart, and throttled ones do not extend it. |
| `Alerting.AlertingService.SendAlert` | `pkg/anomaly/alerting.go:343-399` | The channels with a status are those named and enabled, each with the outcome of the last send on it; the alert ends as sent if and only if it names no channel or some channel's last send went through; it is appended to its tenant's history and to no other. |
| `Alerting.AlertingService.AllChannelsDelivered` | `pkg/anomaly/alerting.go:629-636` | True if and only if every named channel delivered. |
| `Alerting.AlertingService.AnyChannelDelivered` | `pkg/anomaly/alerting.go:638-645` | True if and only if some channel delivered. |
| `Alerting.AlertingService.StoreAlert` | `pkg/anomaly/alerting.go:647-654` | Appends to the tenant's history and to no other. |
| `Alerting.AlertingService.RegisterChannel` | `pkg/anomaly/alerting.go:402-415` | An invalid channel is refused; a valid one replaces its name's entry. |
| `Alerting.LastAttemptOfMember` | `pkg/anomaly/alerting.go:358-379` | A channel has an attempt if and only if it is named and registered as enabled, and its outcome is that of the last send on it. |
| `AlertPool.AlertsAreConserved` | `pkg/anomaly/alerting.go:297-340` | In every reachable state each alert was created as often as it is with a caller, throttled, dropped, queued, with a worker or stored; the queue is within AlertQueueSize; each history is the tenant's stored alerts. |
| `AlertPool.StoredAtMostOnce` | `pkg/anomaly/alerting.go:647-654` | An alert created once is stored at most once over all histories, in its own tenant's, and is then nowhere else. |
| `AlertPool.RestAccountsForAll` | `pkg/anomaly/alerting.go:705-745` | At rest everything created was throttled, dropped or stored if and only if the queue is empty, which it is as long as a worker lives. |
| `AlertPool.PoolThrottles` | `pkg/anomaly/alerting.go:917-933` | On every run, any number of callers interleaved, an alert is throttled if and only if one of its anomaly and rule passed less than the window before. |
| `AlertPool.OrderIffOneWorker` | `pkg/anomaly/alerting.go:694-752` | Every tenant's history is, on every run, a prefix of the tenant's alerts in the order they were accepted, if and only if there is at most one worker, whatever the queue size and the window. |
| `AlertPool.FewWorkersKeepOrder` | `pkg/anomaly/alerting.go:732-752` | With at most one worker it always is. |
| `AlertPool.TwoWorkersMayOvertake` | `pkg/anomaly/alerting.go:732-752` | From any start with two or more workers there is a run that stores two alerts of a tenant the other way round. |
| `AlertPool.PoolDrains` | `pkg/anomaly/alerting.go:732-752` | As long as a worker lives the pool can empty its queue and its hands, in exactly two steps a queued alert and one a held alert. |
| `AlertPool.WorkerCanMove` | `pkg/anomaly/alerting.go:732-752` | While there is work and a worker lives, some worker step is possible, and it takes one off the work. |
| `AlertPool.WorkersLiveUntilStop` | `pkg/anomaly/alerting.go:732-752` | On no run does a worker end before Shutdown. |
| `AlertPool.IdleWorkersCanEnd` | `pkg/anomaly/alerting.go:732-752` | After it an idle worker can end, whatever is queued. |
| `RateLimiter.Limiter.Handle` | `pkg/auth/middleware.go:592-620` | A request is admitted if and only if fewer than the limit of the client's requests handled before, over the whole history, were admitted less than 60 seconds ago. |
| `RateLimiter.HandleKeepsTable` | `pkg/auth/middleware.go:596-618` | Pruning and appending leave a table that any later pruning cannot tell from the full history. |
| `RateLimiter.WindowIsBounded` | `pkg/auth/middleware.go:608-618` | For no t are more of a client's requests admitted in (t - 60, t] than the limit. |
| `Revocation.JWTManager.RevokeToken` | `pkg/auth/jwt_manager.go:252-258` | The token's id is entered with the time of the call. |
| `Revocation.JWTManager.CleanupRevokedTokens` | `pkg/auth/jwt_manager.go:286-298` | Deleting while going over the table, in any order, leaves exactly the entries no older than the refresh lifetime. |
| `Revocation.JWTManager.ValidateToken` | `pkg/auth/jwt_manager.go:168-194` | The clock is read by the parser and the table looked up later, after whatever other calls got the lock: accepts if and only if the signature holds, the reading is within the token's life, and its id is not in the table by then; an unsigned, early or expired token is refused whatever the table. |
| `Revocation.EntryStays` | `pkg/auth/jwt_manager.go:286-298` | An entry goes only when more than the refresh lifetime has passed since the last revocation. |
| `Revocation.RevocationLasts` | `pkg/auth/jwt_manager.go:168-298` | A revocation keeps a token out for good, over all later revocations, cleanups and times and all validations that take at most `slow` from clock reading to lookup, if and only if the token expires at least `slow` before the refresh lifetime after the revocation is over, or is never valid. |
| `Revocation.CleanedTooEarly` | `pkg/auth/jwt_manager.go:286-298` | Otherwise a cleanup just before the lookup lets a token in that was parsed just before it expired. |
| `Revocation.ValidationsAreCovered` | `pkg/auth/jwt_manager.go:168-194` | That is what a validation finds that starts after the revocation, whatever comes before its clock reading and between that and its lookup. |
| `Revocation.RevocationOfKindLasts` | `pkg/auth/jwt_manager.go:261-272` | Revoking tokens of a kind at any time lasts if and only if the kind's lifetime and the slowest validation together are at most the refresh lifetime, or the kind has no lifetime. |
| `Revocation.DefaultLifetimes` | `pkg/auth/jwt_manager.go:39-46` | With the defaults revoked access tokens stay out if and only if no validation takes longer than seven days less fifteen minutes, a refresh token if and only if none takes longer than it was from issue (in whole seconds) to revocation, an API token if and only if none takes longer than that less 358 days. |
| `ChunkBatching.ProcessChunks` | `internal/processors/pipeline.go:405-557` | On success the saved rows are the filtered stream, cut into full batches and a last one of 1 to n rows, with the totals over it; on each error they are the full batches of a prefix, fewer rows than a batch are lost (one batch when its save fails), and the error is that of the first turn that went wrong. |
| `ChunkBatching.AddTurn` | `internal/processors/pipeline.go:446-539` | One turn keeps saved batches plus buffer equal to the rows dealt with. |
| `ChunkBatching.AddRow` | `internal/processors/pipeline.go:515-538` | One row keeps it too, saving a batch when it is full. |
| `ChunkBatching.Finish` | `internal/processors/pipeline.go:542-556` | Saves what is left, averages, and records the count. |
| `ChunkBatching.Database.SaveBatch` | `internal/processors/pipeline.go:560-567` | All rows of the batch or none; an empty batch is no insert. |
| `ChunkBatching.BatchesAreUnique` | `internal/processors/pipeline.go:526-538` | There is only one way to cut a list of rows into such batches. |
| `ChunkBatching.RowOfChunk` | `internal/processors/pipeline.go:461-466` | A chunk makes one row, with its id, its size and its rating or 0, or none when the filter is on and the rating is below the threshold. |
| `ChunkBatching.StreamIs` | `internal/processors/pipeline.go:413-466` | The stream is that of the turns in order, and a turn that goes wrong adds nothing. |
| `ChunkBatching.FiguresAdd` | `internal/processors/pipeline.go:517-523` | Bytes, ratings and their number add up row by row, a rating counting when it is positive. |
| `ChunkBatching.ScoreIs` | `internal/processors/pipeline.go:550-553` | The score times the number of rated rows is the sum of their ratings, and 0 when none is rated. |
| `ChunkBatching.ScoreIsMeanIff` | `internal/processors/pipeline.go:517-553` | The quality score is the mean over the saved rows if and only if all of them, or none, have a positive completeness. |
| `TopSentences.SelectTopSentences` | `pkg/analysis/models.go:405-440` | The sentences at min(k, n) rising indices such that every chosen score is at least every other, for any sort, duplicates told apart by index. |
| `TopSentences.FirstAreBest` | `pkg/analysis/models.go:422-432` | The first m by falling score, put back in text order, are such a selection however ties are broken. |
| `TopSentences.DistinctScoresDecide` | `pkg/analysis/models.go:422-432` | When no two scores are equal there is only one such selection. |
| `TopSentences.SortSlice` | `pkg/analysis/models.go:422-432` | A permutation of the first n places in order of the key; the rest stays. |
| `Migrator.Migrator.Migrate` | `internal/database/migrate.go:149-173` | Runs the pending files in order up to the first failure and no others; success means all of them. |
| `Migrator.Migrator.MigrateUp` | `internal/database/migrate.go:176-200` | The same for at most the given number, none for a negative one; success means that number or all. |
| `Migrator.Migrator.RunMigration` | `internal/database/migrate.go:250-282` | The versions the file records and its own enter the table together, or nothing. |
| `Migrator.Migrator.GetPendingMigrations` | `internal/database/migrate.go:120-146` | The files whose version is not in the table, each as often as it is listed, in order of version number. |
| `Migrator.SortedOrders` | `internal/database/migrate.go:80-92` | The list is a permutation of the files in order of version number. |
| `Migrator.VersionIs` | `internal/database/migrate.go:337-344` | The version of a file is its name up to the first underscore. |
| `Migrator.NumberIs` | `internal/database/migrate.go:80-92` | Versions are compared as decimal numbers, with or without a sign. |
| `Migrator.RunsKeepPrefix` | `internal/database/migrate.go:120-200` | When no file marks the version of a later one, what has been committed is at every point, over any calls failing anywhere, the first files of the sorted list. |
| `Migrator.NothingRunsTwice` | `internal/database/migrate.go:120-200` | No file of a directory that lists none twice is committed twice, on any calls, whatever versions the files share. |
| `Migrator.SuccessLeavesNonePending` | `internal/database/migrate.go:149-173` | A Migrate that succeeds leaves none pending, whatever the files and the table before. |
| `Migrator.MigrateFinishes` | `internal/database/migrate.go:149-173` | When no file marks the version of a later one, it has then run every file in order, after any earlier calls. |
| `Migrator.ResumesIff` | `internal/database/migrate.go:176-200` | MigrateUp(n) and then Migrate equals Migrate for every n if and only if no file marks the version of a later one. |
| `Migrator.IndependentIff` | `internal/database/migrate.go:264-277` | For files that record at most their own version that condition is that the versions are distinct. |
| `Migrator.SharedVersionIsLost` | `internal/database/migrate.go:132-146` | When a run stops between two files with one version, the second never runs. |
| `Migrator.ShippedFilesDoNotResume` | `internal/database/migrations/005_add_neo4j_document_id.sql:1` | The files of the repository, which sort as listed, have version 005 twice: stopping between the two loses the second for good, which one run would have applied. |
| `TodoFile.TodoManager.SaveToFile` | `scripts/todo.go:146-209` | The file holds exactly Saved of the items, or is unchanged when it cannot be created. |
| `TodoFile.SavedText` | `scripts/todo.go:146-209` | Saved is the title, the three headings each followed by its section, and the legend. |
| `TodoFile.ItemLinesText` | `scripts/todo.go:160-190` | A section holds a line for each item of its status, in order: an empty box, or a ticked one for completed items, and the text. |
| `TodoFile.TodoManager.LoadFromFile` | `scripts/todo.go:67-117` | Adds the items that Loaded reads off the file to those there, or nothing when there is no file. |
| `TodoFile.LineUnderHeading` | `scripts/todo.go:75-113` | An item line is read as in progress under that heading, completed under that heading, and under the other or none as completed if ticked and else as todo. |
| `TodoFile.TodoManager.AddTodo` | `scripts/todo.go:37-48` | Appends a todo item and saves. |
| `TodoFile.TodoManager.Mark` | `scripts/todo.go:50-65` | Changes the status of the item at a valid index and saves; any other index does nothing. |
| `TodoFile.RoundTripIff` | `scripts/todo.go:67-209` | Loading a saved file gives the items grouped as in progress, todo, completed if and only if every text with a known status is non-empty, without a newline and without trailing white space. |
| `TodoFile.SavingAgainIsIdentical` | `scripts/todo.go:146-209` | Saving again what was loaded writes the identical file. |
| `TodoFile.LoadedItemsComeBack` | `scripts/todo.go:67-209` | Items read from any file survive saving and loading, up to the grouping. |
| `TodoFile.LoadedAreGood` | `scripts/todo.go:86-144` | Every item read off any file has a non-empty text without a newline or trailing white space, one of the three statuses, and the priority and category its symbols stand for. |
| `TodoFile.WhiteSpaceIs` | `scripts/todo.go:79` | White space is that of Unicode, by code points. |

## Left out

- Redelivery of page results: the increments count each delivery, so the counting claims are for results handled once each; the claims about scanning before embedding include redelivery.
- Several jobs at once: a machine is one job, one file or one session; rows of other jobs are not touched by the statements modelled.
- Buckets: page text is written to the tenant bucket and read from the bucket of the file URL; the two are taken to be equal.
- PagePipeline.RunKeepsInv: page rows, statuses and counters are on values, because several processes interleave inside a handler; the in-place form is in `Assembly.Assembler` and `PageWorkers`. The database statements of one handler succeed, except where `conf.stored` says otherwise.
- ChunkPipeline.ReportIsNeverEarly: for one assembly of the file; a second one, where it can happen, inserts chunks of its own.
- AssemblerRuns.HandleIsRun: `conf.stored` of the machine is one answer for the whole job; the lemma takes the answer of the assembly in question.
- Assembly.Assembler.AssembleFile: chunk ids, times, the S3 paths and the texts of error messages are not part of the tables.
- Assembly.AverageOCRConfidence: over reals, without float rounding.
- PageWorkers.OcrWorker.ProcessPageJob: marshalling does not fail and messages are well formed; the cache's mutex is taken as given, one job at a time.
- ChunkWorkers.ChunkTables.ProcessDLPJob: violation records, risk scores and the policy cache are not modelled.
- SessionRuns.SessionExecution: the files were added once, with distinct ids, before the start; a negative MaxConcurrentFiles, whose panic ends the whole process, here ends the session's processing only.
- SessionRuns.SessionAccounting: of the writes to the session row the status in StartSession and the progress are modelled, the latter in `SessionProgress`; the row's counters and the status writes of StopSession and completeSession are left out.
- BatchAnalysis.AnalyzeBatch: the analysis of a request is a function of the request, a panic or a cancelled context being one of its failures; retries, the cache and stored results are inside it.
- Alerting.RuleEngine.FindMatchingRules: comparing one condition with an anomaly is a parameter, and calls come one at a time; the code writes the stamps under a read lock, so concurrent calls can both fire a rule. The conditions of a rule are all evaluated by the loop of evaluateConditions.
- Alerting.RuleEngine.PutRule: AddRule and UpdateRule of the engine; which fields the service's UpdateRule copies is left out.
- AlertPool.AlertsAreConserved: ProcessAnomaly appears as its three steps (create, check the throttler, offer to the queue), so one call may interleave with any other; SendAlert is called by workers only, as in the code; a channel that never answers keeps its worker from storing, which is a step that does not come.
- AlertPool.PoolDrains: finds one schedule of the right length; that every worker step takes one off the work is `AlertPool.WorkerCanMove`.
- RateLimiter.Limiter.Handle: requests are handled one at a time, while the code shares its map between requests without a lock.
- Revocation.JWTManager.ValidateToken: the signature and the signing method are a predicate, and the claims besides id and times are left out.
- ChunkBatching.ProcessChunks: inline redaction, which changes only the preview and its hash, and logging; a batch size of 0, on which the code divides by zero, is excluded.
- TopSentences.SelectTopSentences: scores are any input; how scoreSentences computes them is left out. A negative count panics in the code and is excluded.
- Migrator.Migrator.GetMigrationFiles: files are given by their names in the migrations directory, which is flat.
- Migrator.NumberIs: version numbers beyond 64 bits, which the code cuts off at the largest.
- Migrator.Migrator.RunMigration: a transaction commits as a whole or not at all; Reset, Rollback and ValidateDatabase are left out. Files with equal version numbers keep the order of the directory, as sort.Slice leaves so short a list.
- TodoFile.TodoManager.LoadFromFile: the scanner's limit on the length of a line, dates, and text that is not valid Unicode.
- Sentiment, topic, readability and similar scores, HTTP routing, controllers, storage tiers, metrics and health servers: no state worth specifying here.
- ConfigurationManager, MemoryUserStore and MemoryTenantStore: sequential maps with nothing that spans calls.
